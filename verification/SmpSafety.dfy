/** What holds in every run of the vCPUs until it ends: the count, the parks, the Host's lock. */
module SmpSafety {
  import opened Wrappers
  import opened Smp

  // ----- who is counted

  /** In parkFor, counted out. */
  predicate Parked(pc: Pc) {
    pc.ParkCheck? || pc.ParkWait? || pc.ParkWoke? || pc.ParkLate?
  }

  /** The Host's lock held. */
  predicate HoldsHost(pc: Pc) {
    || pc.InHost? || pc.LeaveHost? || pc.WaitOthers?
    || (pc.WantHalt? && pc.why.ForExit?) || (pc.Halting? && pc.why.ForExit?)
  }

  /** In a Host call or waiting for one, counted out. */
  predicate AtHost(pc: Pc) {
    pc.WantHost? || HoldsHost(pc)
  }

  /** A vCPU that the count should include: started, not parked, not at the Host, not yet to be
      counted in again. */
  predicate Counted(x: Cpu) {
    x.granted && !Parked(x.pc) && !AtHost(x.pc) && !x.pc.Resume?
  }

  ghost function Count(cpus: seq<Cpu>): nat {
    if cpus == [] then 0 else Count(cpus[..|cpus| - 1]) + if Counted(cpus[|cpus| - 1]) then 1 else 0
  }

  lemma {:induction false} CountPut(cpus: seq<Cpu>, c: nat, x: Cpu)
    requires c < |cpus|
    ensures Count(cpus[c := x]) == Count(cpus) - (if Counted(cpus[c]) then 1 else 0) + if Counted(x) then 1 else 0
  {
    var last := |cpus| - 1;
    if c == last {
      assert cpus[c := x][..last] == cpus[..last];
    } else {
      CountPut(cpus[..last], c, x);
      assert cpus[c := x][..last] == cpus[..last][c := x];
    }
  }

  /** Two counted vCPUs count two. */
  lemma {:induction false} CountTwo(cpus: seq<Cpu>, c: nat, d: nat)
    requires c < |cpus| && d < |cpus| && c != d && Counted(cpus[c]) && Counted(cpus[d])
    ensures Count(cpus) >= 2
  {
    var last := |cpus| - 1;
    if c == last {
      CountOne(cpus[..last], d);
    } else if d == last {
      CountOne(cpus[..last], c);
    } else {
      CountTwo(cpus[..last], c, d);
    }
  }

  lemma {:induction false} CountOne(cpus: seq<Cpu>, c: nat)
    requires c < |cpus| && Counted(cpus[c])
    ensures Count(cpus) >= 1
  {
    if c < |cpus| - 1 {
      CountOne(cpus[..|cpus| - 1], c);
    }
  }

  // ----- the invariant, one vCPU at a time

  /** The mutex, the Host's lock and halt's Once are each held where their holder's thread says. */
  predicate Locks(s: State, c: nat)
    requires c < |s.cpus|
  {
    var pc := s.cpus[c].pc;
    && (pc.Resuming? <==> s.mutex.Held? && s.mutex.owner == c)
    && (HoldsHost(pc) <==> s.host == Some(c))
    && (pc.Halting? <==> s.halt.Running? && s.halt.owner == c)
  }

  /** No loop has ended, and no vCPU waits for the others', before the run has. */
  predicate Ends(s: State, c: nat)
    requires c < |s.cpus|
  {
    var pc := s.cpus[c].pc;
    && (pc.Done? || pc.EndedStopped? ==> s.Quit())
    && (pc.WaitOthers? ==> s.halt.Finished? && s.Many())
    && ((pc.WantHalt? || pc.Halting?) && pc.why.ForExit? ==> s.Many())
  }

  /** A vCPU that runs has been counted in, and one being counted in is its starter's. */
  predicate Starts(s: State, c: nat)
    requires c < |s.cpus|
  {
    var x := s.cpus[c];
    && (!x.pc.AwaitStart? && !s.Quit() ==> x.granted)
    && (x.startMsg ==> x.granted)
    && (x.granted && c != 0 ==> x.started)
    && (x.started <==> x.starter.Some?)
    && (x.pc.StartCount? ==> 1 <= x.pc.target < |s.cpus| && s.cpus[x.pc.target].starter == Some(c) && !s.cpus[x.pc.target].granted)
    && (x.pc.StartSend? ==> 1 <= x.pc.target < |s.cpus| && s.cpus[x.pc.target].starter == Some(c) && s.cpus[x.pc.target].granted)
  }

  predicate Near(s: State, limit: Option<nat>) {
    limit.Some? ==> limit.value <= s.now + s.limit
  }

  /** A wait that is limited has a time; one that is not is about a park that is not limited either,
      or its wake is on the way. */
  predicate Parks(s: State, c: nat)
    requires c < |s.cpus|
  {
    var x := s.cpus[c];
    match x.pc
    case ParkCheck(_, limit) => x.park != NotParked && Near(s, limit)
    case ParkWait(_, limit, limited) =>
      && x.park != NotParked && Near(s, limit)
      && (limited ==> limit.Some? && x.park == ParkedLimited)
      && (!limited && x.park == ParkedLimited ==> x.token)
    case ParkWoke(_, limit, limited, woken) =>
      x.park != NotParked && Near(s, limit) && (limited ==> limit.Some? && x.park == ParkedLimited)
    case ParkLate(_, limit) => x.park == ParkedLimited && Near(s, limit)
    case Resume(after) => true
    case _ => s.Quit() || x.park == NotParked
  }

  /** While the count is not zero nobody is parked until woken, but those resume's loop has yet to reach. */
  predicate Wakes(s: State, c: nat)
    requires c < |s.cpus|
  {
    s.cpus[c].park == ParkedUntilWoken ==> s.running == 0 || (s.mutex.Held? && s.mutex.at <= c)
  }

  predicate Local(s: State, c: nat)
    requires c < |s.cpus|
  {
    Locks(s, c) && Ends(s, c) && Starts(s, c) && Parks(s, c)
  }

  /** Until the run ends, of a machine of several vCPUs. */
  ghost predicate Tally(s: State) {
    && s.running == Count(s.cpus)
    && (s.mutex.Held? ==> s.running == 1)
    && (forall c :: 0 <= c < |s.cpus| ==> Wakes(s, c))
  }

  ghost predicate Inv(s: State) {
    && (forall c :: 0 <= c < |s.cpus| ==> Local(s, c))
    && (s.mutex.Held? ==> s.mutex.owner < |s.cpus| && s.mutex.at <= |s.cpus|)
    && (s.host.Some? ==> s.host.value < |s.cpus|)
    && (s.halt.Running? ==> s.halt.owner <= |s.cpus| && s.halt.at <= 4 * |s.cpus|)
    && (s.watch.Halts? <==> s.halt.Running? && s.halt.owner == |s.cpus|)
    && (!s.Quit() && s.Many() ==> Tally(s))
  }

  // ----- what a step leaves of the other vCPUs

  /** Nothing that vCPU d's part of the invariant is about has been taken from it. */
  predicate Calm(s: State, s': State, d: nat) {
    && |s'.cpus| == |s.cpus| && d < |s.cpus| && s'.cpus[d] == s.cpus[d]
    && ((s'.mutex.Held? && s'.mutex.owner == d) <==> (s.mutex.Held? && s.mutex.owner == d))
    && (s'.host == Some(d) <==> s.host == Some(d))
    && ((s'.halt.Running? && s'.halt.owner == d) <==> (s.halt.Running? && s.halt.owner == d))
    && (s.Quit() ==> s'.Quit()) && (s.halt.Finished? ==> s'.halt.Finished?)
    && s.now <= s'.now && s.limit == s'.limit
  }

  /** Only its starter's step counts a vCPU in. */
  predicate SameStart(s: State, s': State, d: nat)
    requires |s'.cpus| == |s.cpus| && d < |s.cpus|
  {
    var pc := s.cpus[d].pc;
    (pc.StartCount? || pc.StartSend?) && pc.target < |s.cpus| ==>
      && s'.cpus[pc.target].starter == s.cpus[pc.target].starter
      && s'.cpus[pc.target].granted == s.cpus[pc.target].granted
  }

  lemma OtherKeeps(s: State, s': State, d: nat)
    requires Calm(s, s', d) && SameStart(s, s', d) && Local(s, d)
    ensures Local(s', d)
  {
  }

  // ----- steps that change one vCPU alone

  predicate SameBirth(x: Cpu, y: Cpu) {
    x.started == y.started && x.starter == y.starter && x.granted == y.granted
  }

  /** A step that changes vCPU c and none of the shared state keeps the invariant, if c's part does. */
  lemma Alone(s: State, c: nat, s': State)
    requires Inv(s) && c < |s.cpus| && |s'.cpus| == |s.cpus|
    requires s' == s.(cpus := s.cpus[c := s'.cpus[c]], end := s'.end)
    requires SameBirth(s'.cpus[c], s.cpus[c]) && Local(s', c)
    requires !s.Quit() && s.Many() ==> Counted(s'.cpus[c]) == Counted(s.cpus[c])
    requires s'.cpus[c].park == ParkedUntilWoken ==> s.running == 0 || s.cpus[c].park == ParkedUntilWoken
    ensures Inv(s')
  {
    forall d | 0 <= d < |s.cpus|
      ensures Local(s', d)
    {
      if d != c {
        OtherKeeps(s, s', d);
      }
    }
    if !s.Quit() && s.Many() {
      CountPut(s.cpus, c, s'.cpus[c]);
      forall d | 0 <= d < |s.cpus|
        ensures Wakes(s', d)
      {
        assert Wakes(s, d);
      }
    }
  }

  lemma AwaitKeeps(s: State, c: nat, choice: Choice, s': State)
    requires Inv(s) && c < |s.cpus| && s.cpus[c].pc.AwaitStart? && AwaitStep(s, c, choice) == Some(s')
    ensures Inv(s')
  {
    hide Moves, Takes, Same;
    assert Local(s, c);
    Alone(s, c, s');
  }

  lemma EnterKeeps(s: State, c: nat, choice: Choice, s': State)
    requires Inv(s) && c < |s.cpus| && s.cpus[c].pc.Enter? && EnterStep(s, c, choice) == Some(s')
    ensures Inv(s')
  {
    hide Moves, Takes, Same;
    assert Local(s, c);
    Alone(s, c, s');
  }

  lemma GuestKeeps(s: State, c: nat, choice: Choice, s': State)
    requires Inv(s) && c < |s.cpus| && s.cpus[c].pc.InGuest? && GuestStep(s, c, choice) == Some(s')
    ensures Inv(s')
  {
    hide Moves, Takes, Same;
    assert Local(s, c);
    Alone(s, c, s');
  }

  lemma InterruptedKeeps(s: State, c: nat)
    requires Inv(s) && c < |s.cpus| && s.cpus[c].pc.Interrupted?
    ensures Inv(InterruptedStep(s, c))
  {
    hide Moves, Takes, Same;
    assert Local(s, c);
    Alone(s, c, InterruptedStep(s, c));
  }

  lemma ClearingKeeps(s: State, c: nat)
    requires Inv(s) && c < |s.cpus| && s.cpus[c].pc.Clearing?
    ensures Inv(ClearingStep(s, c))
  {
    assert Local(s, c);
    Alone(s, c, ClearingStep(s, c));
  }

  lemma CanceledKeeps(s: State, c: nat)
    requires Inv(s) && c < |s.cpus| && s.cpus[c].pc.Canceled?
    ensures Inv(CanceledStep(s, c))
  {
    assert Local(s, c);
    Alone(s, c, CanceledStep(s, c));
  }

  /** A wake of any vCPU. */
  lemma WakeUpKeeps(s: State, t: nat)
    requires Inv(s) && t < |s.cpus|
    ensures Inv(WakeUp(s, t))
  {
    assert Local(s, t);
    Alone(s, t, WakeUp(s, t));
  }

  /** A vCPU that runs the guest or answers its own call, before and after. */
  predicate Busy(pc: Pc) {
    pc.Enter? || pc.Dispatch? || pc.WakingAll? || pc.ParkBegin? || pc.LockHost? || pc.Ended?
  }

  lemma BusyKeeps(s: State, c: nat, pc: Pc)
    requires Inv(s) && c < |s.cpus| && Busy(s.cpus[c].pc) && Busy(pc)
    ensures Inv(Goto(s, c, pc))
  {
    hide Moves, Takes;
    assert Local(s, c);
    Alone(s, c, Goto(s, c, pc));
  }

  lemma WakingAllKeeps(s: State, c: nat)
    requires Inv(s) && c < |s.cpus| && s.cpus[c].pc.WakingAll?
    ensures Inv(WakingAllStep(s, c, s.cpus[c].pc.at))
  {
    var at := s.cpus[c].pc.at;
    if at >= |s.cpus| {
      BusyKeeps(s, c, Enter);
    } else {
      BusyKeeps(s, c, WakingAll(at + 1));
      if at != c {
        WakeUpKeeps(Goto(s, c, WakingAll(at + 1)), at);
      }
    }
  }

  lemma DispatchKeeps(s: State, c: nat)
    requires Inv(s) && c < |s.cpus| && s.cpus[c].pc.Dispatch?
    ensures Inv(DispatchStep(s, c, s.cpus[c].pc.call))
  {
    match s.cpus[c].pc.call
    case Self => BusyKeeps(s, c, Enter);
    case Store => BusyKeeps(s, c, Enter);
    case Faults => BusyKeeps(s, c, Ended(Failed));
    case Wake(a) =>
      if a == -1 {
        BusyKeeps(s, c, WakingAll(0));
      } else {
        BusyKeeps(s, c, Enter);
        if 0 <= a < |s.cpus| {
          WakeUpKeeps(Goto(s, c, Enter), a);
        }
      }
    case Start(a) =>
      if a < 1 || a >= |s.cpus| || s.cpus[a].started {
        BusyKeeps(s, c, Enter);
      } else {
        StartKeeps(s, c, a);
      }
    case Park(ns) => BusyKeeps(s, c, ParkBegin(if ns >= 0 then Some(s.now + ns) else None));
    case Host => BusyKeeps(s, c, LockHost(Host));
    case Exit(code) => BusyKeeps(s, c, LockHost(Exit(code)));
  }

  /** CPUStart's swap: the target is this vCPU's to start. */
  lemma StartKeeps(s: State, c: nat, a: nat)
    requires Inv(s) && c < |s.cpus| && s.cpus[c].pc == Dispatch(Start(a))
    requires 1 <= a < |s.cpus| && !s.cpus[a].started
    ensures Inv(DispatchStep(s, c, Start(a)))
  {
    hide Locks, Ends, Starts, Parks, Counted, Wakes, DispatchStep, Local;
    assert Local(s, c) && Local(s, a);
    var s' := DispatchStep(s, c, Start(a));
    StartBirth(s, c, a);
    StartLocal(s, c, a);
    forall d | 0 <= d < |s.cpus|
      ensures Local(s', d)
    {
      assert Local(s, d);
      if d != c && d != a {
        StartOther(s, c, a, d);
      }
    }
    if !s.Quit() && s.Many() {
      StartTally(s, c, a);
    }
    StartRest(s, c, a);
  }

  lemma StartRest(s: State, c: nat, a: nat)
    requires c < |s.cpus| && 1 <= a < |s.cpus| && !s.cpus[a].started
    ensures var s' := DispatchStep(s, c, Start(a));
            && |s'.cpus| == |s.cpus| && s' == s.(cpus := s'.cpus)
            && forall d :: 0 <= d < |s.cpus| && d != c && d != a ==> s'.cpus[d] == s.cpus[d]
  {
    hide Moves;
  }

  lemma StartOther(s: State, c: nat, a: nat, d: nat)
    requires Inv(s) && c < |s.cpus| && s.cpus[c].pc == Dispatch(Start(a))
    requires 1 <= a < |s.cpus| && !s.cpus[a].started && d < |s.cpus| && d != c && d != a
    ensures Local(DispatchStep(s, c, Start(a)), d)
  {
    hide Moves, Tally, Locks, Ends, Parks, Starts;
    assert Local(s, d);
    StarterKnown(s, d, a);
    OtherKeeps(s, DispatchStep(s, c, Start(a)), d);
  }

  lemma StartLocal(s: State, c: nat, a: nat)
    requires c < |s.cpus| && s.cpus[c].pc == Dispatch(Start(a)) && 1 <= a < |s.cpus| && !s.cpus[a].started
    requires Local(s, c) && Local(s, a)
    ensures Local(DispatchStep(s, c, Start(a)), c) && Local(DispatchStep(s, c, Start(a)), a)
  {
  }

  lemma StartTally(s: State, c: nat, a: nat)
    requires Tally(s) && c < |s.cpus| && s.cpus[c].pc == Dispatch(Start(a)) && 1 <= a < |s.cpus| && a != c
    requires !s.cpus[a].started
    ensures Tally(DispatchStep(s, c, Start(a)))
  {
    var s' := DispatchStep(s, c, Start(a));
    CountPut(s.cpus, c, s.cpus[c].(pc := StartCount(a)));
    CountPut(s.cpus[c := s.cpus[c].(pc := StartCount(a))], a, s'.cpus[a]);
    forall d | 0 <= d < |s.cpus|
      ensures Wakes(s', d)
    {
      assert Wakes(s, d);
    }
  }

  lemma StartBirth(s: State, c: nat, a: nat)
    requires Inv(s) && c < |s.cpus| && s.cpus[c].pc == Dispatch(Start(a))
    requires 1 <= a < |s.cpus| && !s.cpus[a].started
    ensures a != c || s.Quit()
  {
    assert Local(s, c) && Local(s, a);
  }

  /** A vCPU being started is not one nobody has named. */
  lemma StarterKnown(s: State, d: nat, a: nat)
    requires Inv(s) && d < |s.cpus| && a < |s.cpus| && !s.cpus[a].started
    ensures (s.cpus[d].pc.StartCount? || s.cpus[d].pc.StartSend?) ==> s.cpus[d].pc.target != a
  {
    assert Local(s, d) && Local(s, a);
  }

  // ----- steps that change what is shared

  /** A step that changes vCPU c and the shared state: what it owes. */
  lemma Shared(s: State, c: nat, s': State)
    requires Inv(s) && c < |s.cpus| && |s'.cpus| == |s.cpus|
    requires s'.cpus == s.cpus[c := s'.cpus[c]] && SameBirth(s'.cpus[c], s.cpus[c])
    requires Local(s', c)
    requires forall d :: 0 <= d < |s.cpus| && d != c ==> Calm(s, s', d)
    requires s'.mutex.Held? ==> s'.mutex.owner < |s.cpus| && s'.mutex.at <= |s.cpus|
    requires s'.host.Some? ==> s'.host.value < |s.cpus|
    requires s'.halt.Running? ==> s'.halt.owner <= |s.cpus| && s'.halt.at <= 4 * |s.cpus|
    requires s'.watch.Halts? <==> s'.halt.Running? && s'.halt.owner == |s.cpus|
    requires s.Quit() ==> s'.Quit()
    requires !s'.Quit() && s.Many() ==>
               && s'.running - s.running == (if Counted(s'.cpus[c]) then 1 else 0) - (if Counted(s.cpus[c]) then 1 else 0)
               && (s'.mutex.Held? ==> s'.running == 1)
               && forall d :: 0 <= d < |s.cpus| ==> Wakes(s', d)
    ensures Inv(s')
  {
    forall d | 0 <= d < |s.cpus|
      ensures Local(s', d)
    {
      if d != c {
        assert Local(s, d) && Calm(s, s', d);
        OtherKeeps(s, s', d);
      }
    }
    if !s'.Quit() && s.Many() {
      CountPut(s.cpus, c, s'.cpus[c]);
    }
  }

  lemma CountPositive(s: State, c: nat)
    requires Inv(s) && c < |s.cpus| && !s.Quit() && s.Many() && Counted(s.cpus[c])
    ensures s.running >= 1
  {
    CountOne(s.cpus, c);
  }

  lemma ParkBeginKeeps(s: State, c: nat, deadline: Option<nat>, s': State)
    requires Inv(s) && c < |s.cpus| && s.cpus[c].pc == ParkBegin(deadline) && ParkBeginStep(s, c, deadline) == Some(s')
    ensures Inv(s')
  {
    assert Local(s, c);
    if !s.Quit() && s.Many() {
      forall d | 0 <= d < |s.cpus|
        ensures Wakes(s', d)
      {
        assert Wakes(s, d);
        CountPositive(s, c);
      }
    }
    Shared(s, c, s');
  }

  lemma ParkCheckKeeps(s: State, c: nat, deadline: Option<nat>, limit: Option<nat>, s': State)
    requires Inv(s) && c < |s.cpus| && s.cpus[c].pc == ParkCheck(deadline, limit)
    requires ParkCheckStep(s, c, deadline, limit) == Some(s')
    ensures Inv(s')
  {
    assert Local(s, c);
    Alone(s, c, s');
  }

  lemma ParkWaitKeeps(s: State, c: nat, deadline: Option<nat>, limit: Option<nat>, limited: bool, choice: Choice, s': State)
    requires Inv(s) && c < |s.cpus| && s.cpus[c].pc == ParkWait(deadline, limit, limited)
    requires ParkWaitStep(s, c, deadline, limit, limited, choice) == Some(s')
    ensures Inv(s')
  {
    hide Moves, Takes;
    assert Local(s, c);
    Alone(s, c, s');
  }

  /** A vCPU whose step takes or leaves no lock, start or end. */
  predicate Quiet(pc: Pc) {
    || Parked(pc) || pc.Resume? || pc.ParkBegin? || pc.Enter?
  }

  lemma QuietLocal(s: State, c: nat, y: Cpu)
    requires c < |s.cpus| && Local(s, c) && Quiet(s.cpus[c].pc) && (Quiet(y.pc) || (s.Quit() && y.pc.EndedStopped?))
    requires SameBirth(y, s.cpus[c]) && y.startMsg == s.cpus[c].startMsg
    ensures var s' := Put(s, c, y); Locks(s', c) && Ends(s', c) && Starts(s', c)
  {
    hide Parks;
  }

  lemma ParkWokeKeeps(s: State, c: nat)
    requires Inv(s) && c < |s.cpus| && s.cpus[c].pc.ParkWoke?
    ensures var pc := s.cpus[c].pc; Inv(ParkWokeStep(s, c, pc.deadline, pc.limit, pc.limited, pc.woken))
  {
    hide Locks, Ends, Starts, Parks, Tally, ParkWokeTo, Counted;
    var pc := s.cpus[c].pc;
    assert Local(s, c);
    ParkWokeLocal(s, c);
    Alone(s, c, ParkWokeStep(s, c, pc.deadline, pc.limit, pc.limited, pc.woken));
  }

  lemma ParkWokeLocal(s: State, c: nat)
    requires c < |s.cpus| && s.cpus[c].pc.ParkWoke? && Local(s, c)
    ensures var pc := s.cpus[c].pc;
            var to := ParkWokeTo(s, pc.deadline, pc.limit, pc.limited, pc.woken);
            && Local(Goto(s, c, to), c)
            && (!s.Quit() ==> !Counted(s.cpus[c].(pc := to)) && !Counted(s.cpus[c]))
  {
    hide Locks, Ends, Starts;
    var pc := s.cpus[c].pc;
    QuietLocal(s, c, s.cpus[c].(pc := ParkWokeTo(s, pc.deadline, pc.limit, pc.limited, pc.woken)));
  }

  lemma ParkLateKeeps(s: State, c: nat, deadline: Option<nat>, limit: Option<nat>, s': State)
    requires Inv(s) && c < |s.cpus| && s.cpus[c].pc == ParkLate(deadline, limit)
    requires ParkLateStep(s, c, deadline, limit) == Some(s')
    ensures Inv(s')
  {
    hide Locks, Ends, Starts, Parks, Tally, Counted;
    assert Local(s, c);
    ParkLateLocal(s, c, deadline, limit);
    Alone(s, c, s');
  }

  lemma ParkLateLocal(s: State, c: nat, deadline: Option<nat>, limit: Option<nat>)
    requires c < |s.cpus| && s.cpus[c].pc == ParkLate(deadline, limit) && Local(s, c)
    ensures var x := s.cpus[c].(park := ParkedUntilWoken, pc := ParkCheck(deadline, limit));
            Local(Put(s, c, x), c) && !Counted(x)
    ensures Local(Goto(s, c, Resume(Resumed)), c) && !Counted(s.cpus[c].(pc := Resume(Resumed)))
    ensures !Counted(s.cpus[c])
  {
    hide Locks, Ends, Starts;
    QuietLocal(s, c, s.cpus[c].(park := ParkedUntilWoken, pc := ParkCheck(deadline, limit)));
    QuietLocal(s, c, s.cpus[c].(pc := Resume(Resumed)));
  }

  /** resume: the count is one only when it was none, and then the mutex is kept for the loop. */
  lemma ResumeKeeps(s: State, c: nat, after: After, s': State)
    requires Inv(s) && c < |s.cpus| && s.cpus[c].pc == Resume(after) && ResumeStep(s, c, after) == Some(s')
    ensures Inv(s')
  {
    hide Locks, Ends, Starts, Parks, Counted, Proceed;
    assert Local(s, c);
    var running := s.running + 1;
    if running == 1 {
      ResumeFirst(s, c, after, running);
    } else {
      ResumeLater(s, c, after, running);
    }
    if !s.Quit() && s.Many() {
      forall d | 0 <= d < |s.cpus|
        ensures Wakes(s', d)
      {
        assert Wakes(s, d);
      }
    }
    Shared(s, c, s');
  }

  /** The first to be counted in takes the loop, and the mutex with it. */
  lemma ResumeFirst(s: State, c: nat, after: After, running: int)
    requires c < |s.cpus| && s.cpus[c].pc == Resume(after) && s.mutex.Free? && Local(s, c)
    ensures var x := s.cpus[c].(park := NotParked, pc := Resuming(after));
            && Local(Put(s, c, x).(running := running, mutex := Held(c, 0)), c)
            && (!s.Quit() ==> Counted(x) && !Counted(s.cpus[c]))
  {
  }

  lemma ResumeLater(s: State, c: nat, after: After, running: int)
    requires c < |s.cpus| && s.cpus[c].pc == Resume(after) && s.mutex.Free? && Local(s, c)
    ensures var x := s.cpus[c].(park := NotParked, pc := Proceed(after));
            && Local(Put(s, c, x).(running := running), c)
            && (!s.Quit() ==> Counted(x) && !Counted(s.cpus[c]))
  {
  }

  /** resume's loop done: nobody is left parked until woken. */
  lemma ResumedKeeps(s: State, c: nat, after: After)
    requires Inv(s) && c < |s.cpus| && s.cpus[c].pc == Resuming(after) && s.mutex.Held? && s.mutex.at >= |s.cpus|
    ensures Inv(Goto(s, c, Proceed(after)).(mutex := Free))
  {
    var s' := Goto(s, c, Proceed(after)).(mutex := Free);
    assert Local(s, c);
    if !s.Quit() && s.Many() {
      forall d | 0 <= d < |s.cpus|
        ensures Wakes(s', d)
      {
        assert Wakes(s, d);
      }
    }
    Shared(s, c, s');
  }

  /** resume's loop looks at vCPU o: one parked until woken is now limited, and woken. */
  lemma ResumingKeeps(s: State, c: nat, after: After, s': State)
    requires Inv(s) && c < |s.cpus| && s.cpus[c].pc == Resuming(after) && ResumingStep(s, c, after) == Some(s')
    ensures Inv(s')
  {
    assert Local(s, c);
    if s.mutex.at >= |s.cpus| {
      ResumedKeeps(s, c, after);
    } else {
      ResumingOne(s, c, after, s');
    }
  }

  lemma ResumingOne(s: State, c: nat, after: After, s': State)
    requires Inv(s) && c < |s.cpus| && s.cpus[c].pc == Resuming(after) && ResumingStep(s, c, after) == Some(s')
    requires s.mutex.Held? && s.mutex.at < |s.cpus|
    ensures Inv(s')
  {
    hide Locks, Ends, Starts, Parks, ResumingStep, Counted;
    var o := s.mutex.at;
    assert Local(s, c) && Local(s, o);
    ResumingLocal(s, c, after, s');
    if !s.Quit() && s.Many() {
      forall d | 0 <= d < |s.cpus|
        ensures Wakes(s', d)
      {
        assert Wakes(s, d);
      }
    }
    Shared(s, o, s');
  }

  lemma ResumingLocal(s: State, c: nat, after: After, s': State)
    requires c < |s.cpus| && s.cpus[c].pc == Resuming(after) && ResumingStep(s, c, after) == Some(s')
    requires s.mutex.Held? && s.mutex.at < |s.cpus| && Local(s, c) && Local(s, s.mutex.at)
    ensures var o := s.mutex.at;
            && s.mutex.owner == c && s'.mutex == Held(c, o + 1) && |s'.cpus| == |s.cpus|
            && s' == s.(cpus := s.cpus[o := s'.cpus[o]], mutex := s'.mutex)
            && SameBirth(s'.cpus[o], s.cpus[o]) && Counted(s'.cpus[o]) == Counted(s.cpus[o]) && Local(s', o)
            && (o != c ==> s'.cpus[o].park != ParkedUntilWoken)
            && s'.cpus[c].pc == s.cpus[c].pc
            && (o == c ==> s'.cpus[c] == s.cpus[c] && (s.Quit() || s.cpus[c].park == NotParked))
  {
    hide Moves, Takes, Locks, Ends, Starts, Parks, Counted;
    var o := s.mutex.at;
    ResumingOwn(s, c, after);
    WokenLocal(s, o, Held(c, o + 1), s.cpus[o].(park := ParkedLimited, token := true));
    WokenLocal(s, o, Held(c, o + 1), s.cpus[o]);
    WokenCounted(s.cpus[o]);
    assert s.cpus[o := s.cpus[o]] == s.cpus;
  }

  lemma ResumingOwn(s: State, c: nat, after: After)
    requires c < |s.cpus| && s.cpus[c].pc == Resuming(after) && Local(s, c)
    ensures s.mutex.Held? && s.mutex.owner == c && (s.Quit() || s.cpus[c].park == NotParked)
  {
  }

  lemma WokenCounted(x: Cpu)
    ensures Counted(x.(park := ParkedLimited, token := true)) == Counted(x)
  {
  }

  /** The loop's next turn leaves a vCPU's part as it is, and so does its wake of one parked until woken. */
  lemma WokenLocal(s: State, o: nat, mutex: Mutex, y: Cpu)
    requires o < |s.cpus| && Local(s, o) && s.mutex.Held? && mutex.Held? && mutex.owner == s.mutex.owner
    requires y == s.cpus[o] || (y == s.cpus[o].(park := ParkedLimited, token := true) && s.cpus[o].park == ParkedUntilWoken)
             || !(s.cpus[o].park == ParkedUntilWoken)
    ensures y == s.cpus[o] || s.cpus[o].park == ParkedUntilWoken ==> Local(Put(s, o, y).(mutex := mutex), o)
  {
  }

  lemma LockHostKeeps(s: State, c: nat, call: Call, s': State)
    requires Inv(s) && c < |s.cpus| && s.cpus[c].pc == LockHost(call) && LockHostStep(s, c, call) == Some(s')
    ensures Inv(s')
  {
    hide Locks, Ends, Starts, Parks, LockHostStep, Counted;
    assert Local(s, c);
    LockHostLocal(s, c, call, s');
    if s.Many() {
      if !s.Quit() {
        CountPositive(s, c);
        forall d | 0 <= d < |s.cpus|
          ensures Wakes(s', d)
        {
          assert Wakes(s, d);
        }
      }
      Shared(s, c, s');
    } else {
      Alone(s, c, s');
    }
  }

  lemma LockHostLocal(s: State, c: nat, call: Call, s': State)
    requires c < |s.cpus| && s.cpus[c].pc == LockHost(call) && LockHostStep(s, c, call) == Some(s') && Local(s, c)
    ensures |s'.cpus| == |s.cpus| && s'.cpus[c] == s.cpus[c].(pc := WantHost(call)) && Local(s', c)
    ensures !Counted(s'.cpus[c]) && (!s.Quit() ==> Counted(s.cpus[c]))
    ensures s' == s.(cpus := s.cpus[c := s'.cpus[c]], running := s'.running)
    ensures if s.Many() then s.mutex.Free? && s'.running == s.running - 1 else s' == s.(cpus := s'.cpus)
  {
    hide Moves, Takes;
  }

  lemma WantHostKeeps(s: State, c: nat, call: Call, choice: Choice, s': State)
    requires Inv(s) && c < |s.cpus| && s.cpus[c].pc == WantHost(call) && WantHostStep(s, c, call, choice) == Some(s')
    ensures Inv(s')
  {
    hide Moves, Takes, Same;
    assert Local(s, c);
    if !s.Quit() && s.Many() {
      forall d | 0 <= d < |s.cpus|
        ensures Wakes(s', d)
      {
        assert Wakes(s, d);
      }
    }
    Shared(s, c, s');
  }

  lemma InHostKeeps(s: State, c: nat, call: Call, choice: Choice, s': State)
    requires Inv(s) && c < |s.cpus| && s.cpus[c].pc == InHost(call) && InHostStep(s, c, call, choice) == Some(s')
    ensures Inv(s')
  {
    hide Moves, Takes, Same;
    assert Local(s, c);
    Alone(s, c, s');
  }

  lemma LeaveHostKeeps(s: State, c: nat, after: After)
    requires Inv(s) && c < |s.cpus| && s.cpus[c].pc == LeaveHost(after)
    ensures Inv(LeaveHostStep(s, c, after))
  {
    var s' := LeaveHostStep(s, c, after);
    assert Local(s, c);
    if !s.Quit() && s.Many() {
      forall d | 0 <= d < |s.cpus|
        ensures Wakes(s', d)
      {
        assert Wakes(s, d);
      }
    }
    Shared(s, c, s');
  }

  lemma WantHaltKeeps(s: State, c: nat, why: HaltFor, s': State)
    requires Inv(s) && c < |s.cpus| && s.cpus[c].pc == WantHalt(why) && WantHaltStep(s, c, why) == Some(s')
    ensures Inv(s')
  {
    hide Locks, Ends, Starts, Parks, Tally, WantHaltStep, Counted;
    assert Local(s, c);
    WantHaltLocal(s, c, why, s');
    Shared(s, c, s');
  }

  lemma WantHaltLocal(s: State, c: nat, why: HaltFor, s': State)
    requires c < |s.cpus| && s.cpus[c].pc == WantHalt(why) && WantHaltStep(s, c, why) == Some(s') && Local(s, c)
    ensures |s'.cpus| == |s.cpus| && SameBirth(s'.cpus[c], s.cpus[c]) && Local(s', c)
    ensures s'.Quit() && s' == s.(cpus := s.cpus[c := s'.cpus[c]], halt := s'.halt)
    ensures (s.halt.NotStarted? && s'.halt == Running(c, 0)) || (s.halt.Finished? && s'.halt == s.halt)
  {
    hide Moves, Takes;
  }

  lemma HaltingKeeps(s: State, c: nat, why: HaltFor, s': State)
    requires Inv(s) && c < |s.cpus| && s.cpus[c].pc == Halting(why) && HaltingStep(s, c, why) == Some(s')
    ensures Inv(s')
  {
    hide Locks, Ends, Starts, Parks, Tally, HaltingStep, Counted, HaltEffect;
    assert Local(s, c);
    HaltOwned(s, c);
    if s.halt.at / 4 >= |s.cpus| {
      HaltedLocal(s, c, why, s');
      Shared(s, c, s');
    } else {
      HaltingIsOne(s, c, why, s');
      HaltOneKeeps(s);
    }
  }

  lemma HaltOwned(s: State, c: nat)
    requires c < |s.cpus| && s.cpus[c].pc.Halting? && Local(s, c)
    ensures s.halt.Running? && s.halt.owner == c
  {
  }

  lemma HaltedLocal(s: State, c: nat, why: HaltFor, s': State)
    requires c < |s.cpus| && s.cpus[c].pc == Halting(why) && HaltingStep(s, c, why) == Some(s') && Local(s, c)
    requires s.halt.Running? && s.halt.at / 4 >= |s.cpus|
    ensures s.halt.owner == c && |s'.cpus| == |s.cpus| && SameBirth(s'.cpus[c], s.cpus[c])
    ensures s' == s.(cpus := s.cpus[c := s'.cpus[c]], halt := Finished) && Local(s', c)
  {
  }

  lemma HaltingIsOne(s: State, c: nat, why: HaltFor, s': State)
    requires c < |s.cpus| && HaltingStep(s, c, why) == Some(s') && s.halt.Running? && s.halt.at / 4 < |s.cpus|
    ensures s' == HaltOne(s)
  {
  }

  lemma EffectBirth(x: Cpu, sub: nat)
    ensures SameBirth(HaltEffect(x, sub), x)
  {
  }

  /** What halt does to a vCPU takes nothing from it. */
  lemma EffectLocal(s: State, c: nat, j: nat, sub: nat)
    requires j < |s.cpus| && s.halt.Running? && s.halt.owner == c && Local(s, j)
    ensures Local(Put(s, j, HaltEffect(s.cpus[j], sub)).(halt := Running(c, s.halt.at + 1)), j)
  {
    hide HaltEffect;
    if sub <= 2 {
      FlagLocal(s, c, j, sub);
    } else {
      SignalLocal(s, c, j, sub);
    }
  }

  lemma FlagLocal(s: State, c: nat, j: nat, sub: nat)
    requires j < |s.cpus| && s.halt.Running? && s.halt.owner == c && Local(s, j) && sub <= 2
    ensures Local(Put(s, j, HaltEffect(s.cpus[j], sub)).(halt := Running(c, s.halt.at + 1)), j)
  {
    var x := HaltEffect(s.cpus[j], sub);
    assert x.pc == s.cpus[j].pc && x.park == s.cpus[j].park && (s.cpus[j].token ==> x.token);
    assert SameBirth(x, s.cpus[j]) && x.startMsg == s.cpus[j].startMsg;
    hide HaltEffect;
  }

  lemma SignalLocal(s: State, c: nat, j: nat, sub: nat)
    requires j < |s.cpus| && s.halt.Running? && s.halt.owner == c && Local(s, j) && sub > 2
    ensures Local(Put(s, j, HaltEffect(s.cpus[j], sub)).(halt := Running(c, s.halt.at + 1)), j)
  {
  }

  /** The watchdog's steps, halt's among them. */
  lemma WatchKeeps(s: State, s': State)
    requires Inv(s) && WatchStep(s) == Some(s')
    ensures Inv(s')
  {
    hide Locks, Ends, Starts, Parks, Tally, Counted, HaltEffect;
    if s.watch.Halts? && s.halt.at / 4 < |s.cpus| {
      HaltOneKeeps(s);
    } else {
      forall d | 0 <= d < |s.cpus|
        ensures Local(s', d)
      {
        assert Local(s, d);
        OtherKeeps(s, s', d);
      }
      if !s'.Quit() && s.Many() {
        SameTally(s, s');
      }
    }
  }

  lemma SameTally(s: State, s': State)
    requires Tally(s) && s'.cpus == s.cpus && s'.running == s.running && s'.mutex == s.mutex
    ensures Tally(s')
  {
    forall d | 0 <= d < |s.cpus|
      ensures Wakes(s', d)
    {
      assert Wakes(s, d);
    }
  }

  lemma HaltOneKeeps(s: State)
    requires Inv(s) && s.halt.Running? && s.halt.at / 4 < |s.cpus|
    ensures Inv(HaltOne(s))
  {
    hide Locks, Ends, Starts, Parks, Tally, Counted, HaltEffect;
    var j := s.halt.at / 4;
    assert Local(s, j);
    EffectLocal(s, s.halt.owner, j, s.halt.at % 4);
    EffectBirth(s.cpus[j], s.halt.at % 4);
    Shared(s, j, HaltOne(s));
  }

  lemma WaitOthersKeeps(s: State, c: nat, code: int, choice: Choice, s': State)
    requires Inv(s) && c < |s.cpus| && s.cpus[c].pc == WaitOthers(code) && WaitOthersStep(s, c, code, choice) == Some(s')
    ensures Inv(s')
  {
    assert Local(s, c);
    Alone(s, c, s');
  }

  lemma EndKeeps(s: State, c: nat)
    requires Inv(s) && c < |s.cpus|
    ensures s.cpus[c].pc.EndedStopped? ==> Inv(Goto(s, c, Done))
    ensures s.cpus[c].pc.Ended? ==> Inv(EndedStep(s, c, s.cpus[c].pc.e))
  {
    assert Local(s, c);
    if s.cpus[c].pc.EndedStopped? {
      Alone(s, c, Goto(s, c, Done));
    } else if s.cpus[c].pc.Ended? {
      Alone(s, c, EndedStep(s, c, s.cpus[c].pc.e));
    }
  }

  lemma TickKeeps(s: State, ns: nat)
    requires Inv(s)
    ensures Inv(s.(now := s.now + ns))
  {
    var s' := s.(now := s.now + ns);
    forall d | 0 <= d < |s.cpus|
      ensures Local(s', d)
    {
      assert Local(s, d);
      OtherKeeps(s, s', d);
    }
    if !s.Quit() && s.Many() {
      forall d | 0 <= d < |s.cpus|
        ensures Wakes(s', d)
      {
        assert Wakes(s, d);
      }
    }
  }

  // ----- a start

  /** CPUStart's critical section: the count and the target together. */
  lemma StartCountKeeps(s: State, c: nat, t: nat, s': State)
    requires Inv(s) && c < |s.cpus| && s.cpus[c].pc == StartCount(t) && StartCountStep(s, c, t) == Some(s')
    ensures Inv(s')
  {
    hide Locks, Ends, Parks, Counted, Wakes, StartCountStep;
    assert Local(s, c) && Local(s, t);
    StartCountLocal(s, c, t, s');
    forall d | 0 <= d < |s.cpus|
      ensures Local(s', d)
    {
      assert Local(s, d);
      if d != c && d != t {
        OneStarter(s, c, d, t);
        OtherKeeps(s, s', d);
      }
    }
    if !s.Quit() && s.Many() {
      StartCountTally(s, c, t, s');
    }
  }

  /** A vCPU is being started by one other only. */
  lemma OneStarter(s: State, c: nat, d: nat, t: nat)
    requires c < |s.cpus| && d < |s.cpus| && c != d && s.cpus[c].pc == StartCount(t) && Local(s, c) && Local(s, d)
    ensures (s.cpus[d].pc.StartCount? || s.cpus[d].pc.StartSend?) ==> s.cpus[d].pc.target != t
  {
  }

  lemma StartCountLocal(s: State, c: nat, t: nat, s': State)
    requires c < |s.cpus| && s.cpus[c].pc == StartCount(t) && StartCountStep(s, c, t) == Some(s')
    requires t < |s.cpus| && Local(s, c) && Local(s, t)
    ensures |s'.cpus| == |s.cpus| && Local(s', c) && Local(s', t)
    ensures s' == s.(cpus := s.cpus[c := s'.cpus[c]][t := s'.cpus[t]], running := s'.running)
    ensures s'.cpus[c].starter == s.cpus[c].starter && s'.cpus[t].starter == s.cpus[t].starter
    ensures c != t ==> s'.cpus[c].granted == s.cpus[c].granted
  {
    hide Moves, Takes;
  }

  lemma StartCountTally(s: State, c: nat, t: nat, s': State)
    requires Inv(s) && c < |s.cpus| && t < |s.cpus| && s.cpus[c].pc == StartCount(t)
    requires StartCountStep(s, c, t) == Some(s') && !s.Quit() && s.Many()
    ensures Tally(s')
  {
    hide Locks, Ends, Starts, Parks, Counted, StartCountStep;
    assert Local(s, c) && Local(s, t);
    StartCountCounts(s, c, t, s');
    var one := s.cpus[c := s.cpus[c].(pc := StartSend(t))];
    CountPut(s.cpus, c, one[c]);
    CountPut(one, t, s'.cpus[t]);
    CountPositive(s, c);
    forall d | 0 <= d < |s.cpus|
      ensures Wakes(s', d)
    {
      assert Wakes(s, d);
    }
  }

  /** The target is not the starter, and is counted from then on. */
  lemma StartCountCounts(s: State, c: nat, t: nat, s': State)
    requires c < |s.cpus| && s.cpus[c].pc == StartCount(t) && StartCountStep(s, c, t) == Some(s') && !s.Quit()
    requires t < |s.cpus| && Local(s, c) && Local(s, t)
    ensures var one := s.cpus[c := s.cpus[c].(pc := StartSend(t))];
            && s' == s.(cpus := one[t := s'.cpus[t]], running := s.running + 1) && s.mutex.Free?
            && Counted(s.cpus[c]) && Counted(one[c]) && !Counted(one[t]) && Counted(s'.cpus[t])
            && s'.cpus[t].park == s.cpus[t].park
  {
    hide Moves, Takes, Locks, Ends, Parks;
  }

  lemma StartSendKeeps(s: State, c: nat, t: nat, s': State)
    requires Inv(s) && c < |s.cpus| && s.cpus[c].pc == StartSend(t) && StartSendStep(s, c, t) == Some(s')
    ensures Inv(s')
  {
    hide Moves, Takes, Inv;
    var one := Goto(s, c, Enter);
    SenderKeeps(s, c, t, one);
    SentKeeps(one, t);
  }

  lemma SenderKeeps(s: State, c: nat, t: nat, one: State)
    requires Inv(s) && c < |s.cpus| && s.cpus[c].pc == StartSend(t) && t < |s.cpus| && one == Goto(s, c, Enter)
    ensures Inv(one) && one.cpus[t].granted
  {
    assert Local(s, c) && Local(s, t);
    Alone(s, c, one);
  }

  lemma SentKeeps(s: State, t: nat)
    requires Inv(s) && t < |s.cpus| && s.cpus[t].granted
    ensures Inv(Put(s, t, s.cpus[t].(startMsg := true)))
  {
    assert Local(s, t);
    Alone(s, t, Put(s, t, s.cpus[t].(startMsg := true)));
  }

  // ----- whole runs

  /** Every step keeps the invariant. */
  lemma StepKeeps(s: State, c: nat, choice: Choice, s': State)
    requires Inv(s) && c < |s.cpus| && Step(s, c, choice) == Some(s')
    ensures Inv(s')
  {
    hide Inv, AwaitStep, EnterStep, GuestStep, InterruptedStep, ClearingStep, CanceledStep, DispatchStep, WakingAllStep;
    hide StartCountStep, StartSendStep, ParkBeginStep, ParkCheckStep, ParkWaitStep, ParkWokeStep, ParkLateStep;
    hide ResumeStep, ResumingStep, LockHostStep, WantHostStep, InHostStep, LeaveHostStep, WantHaltStep, HaltingStep;
    hide WaitOthersStep, EndedStep;
    match s.cpus[c].pc
    case AwaitStart => AwaitKeeps(s, c, choice, s');
    case Enter => EnterKeeps(s, c, choice, s');
    case InGuest => GuestKeeps(s, c, choice, s');
    case Interrupted => InterruptedKeeps(s, c);
    case Clearing => ClearingKeeps(s, c);
    case Canceled => CanceledKeeps(s, c);
    case Dispatch(call) => DispatchKeeps(s, c);
    case WakingAll(at) => WakingAllKeeps(s, c);
    case StartCount(t) => StartCountKeeps(s, c, t, s');
    case StartSend(t) => StartSendKeeps(s, c, t, s');
    case ParkBegin(deadline) => ParkBeginKeeps(s, c, deadline, s');
    case ParkCheck(deadline, limit) => ParkCheckKeeps(s, c, deadline, limit, s');
    case ParkWait(deadline, limit, limited) => ParkWaitKeeps(s, c, deadline, limit, limited, choice, s');
    case ParkWoke(_, _, _, _) => ParkWokeKeeps(s, c);
    case ParkLate(deadline, limit) => ParkLateKeeps(s, c, deadline, limit, s');
    case Resume(after) => ResumeKeeps(s, c, after, s');
    case Resuming(after) => ResumingKeeps(s, c, after, s');
    case LockHost(call) => LockHostKeeps(s, c, call, s');
    case WantHost(call) => WantHostKeeps(s, c, call, choice, s');
    case InHost(call) => InHostKeeps(s, c, call, choice, s');
    case LeaveHost(after) => LeaveHostKeeps(s, c, after);
    case WantHalt(why) => WantHaltKeeps(s, c, why, s');
    case Halting(why) => HaltingKeeps(s, c, why, s');
    case WaitOthers(code) => WaitOthersKeeps(s, c, code, choice, s');
    case EndedStopped => EndKeeps(s, c);
    case Ended(e) => EndKeeps(s, c);
  }

  /** No step adds or removes a vCPU, or changes the limit. */
  lemma StepSize(s: State, c: nat, choice: Choice, s': State)
    requires c < |s.cpus| && Step(s, c, choice) == Some(s')
    ensures Same(s, s')
  {
    hide AwaitStep, EnterStep, GuestStep, InterruptedStep, ClearingStep, CanceledStep, DispatchStep, WakingAllStep;
    hide StartCountStep, StartSendStep, ParkBeginStep, ParkCheckStep, ParkWaitStep, ParkWokeStep, ParkLateStep;
    hide ResumeStep, ResumingStep, LockHostStep, WantHostStep, InHostStep, LeaveHostStep, WantHaltStep, HaltingStep;
    hide WaitOthersStep, EndedStep;
  }

  lemma {:induction false} InitCount(n: nat, cpus: seq<Cpu>)
    requires n > 0 && |cpus| == n && Counted(cpus[0]) && forall c :: 1 <= c < n ==> !Counted(cpus[c])
    ensures Count(cpus) == 1
  {
    if n > 1 {
      InitCount(n - 1, cpus[..n - 1]);
    } else {
      assert cpus[..0] == [];
    }
  }

  lemma InitKeeps(n: nat, limit: nat)
    requires n > 0
    ensures Inv(Init(n, limit))
  {
    InitCount(n, Init(n, limit).cpus);
  }

  lemma {:induction false} RunKeeps(n: nat, limit: nat, events: seq<Event>, s: State)
    requires n > 0 && Exec(Init(n, limit), events) == Some(s)
    ensures Inv(s) && |s.cpus| == n && s.limit == limit
  {
    hide Inv, Step, Init;
    if events == [] {
      InitKeeps(n, limit);
      InitSize(n, limit);
    } else {
      var last := |events| - 1;
      var before := Exec(Init(n, limit), events[..last]).value;
      RunKeeps(n, limit, events[..last], before);
      match events[last]
      case Tick(ns) => TickKeeps(before, ns);
      case Run(c, choice) =>
        StepKeeps(before, c, choice, s);
        StepSize(before, c, choice, s);
      case Watchdog => WatchKeeps(before, s);
    }
  }

  lemma InitSize(n: nat, limit: nat)
    requires n > 0
    ensures |Init(n, limit).cpus| == n && Init(n, limit).limit == limit
  {
  }

  lemma ReachableKeeps(s: State, n: nat, limit: nat)
    requires n > 0 && Reachable(s, n, limit)
    ensures Inv(s) && |s.cpus| == n && s.limit == limit
  {
    hide Inv, Init;
    var events :| Exec(Init(n, limit), events) == Some(s);
    RunKeeps(n, limit, events, s);
  }

  /** In every run of several vCPUs, until it ends, the count is of those that run the guest; and while
      it is not zero and no resume is under way, nobody is parked until woken. */
  lemma RunningCounts(s: State, n: nat, limit: nat)
    requires n > 1 && Reachable(s, n, limit) && !s.Quit()
    ensures s.running == Count(s.cpus)
    ensures s.running > 0 && s.mutex.Free? ==> forall c :: 0 <= c < |s.cpus| ==> s.cpus[c].park != ParkedUntilWoken
  {
    ReachableKeeps(s, n, limit);
    if s.running > 0 && s.mutex.Free? {
      forall c | 0 <= c < |s.cpus|
        ensures s.cpus[c].park != ParkedUntilWoken
      {
        assert Wakes(s, c);
      }
    }
  }

  /** One vCPU at most is inside the Host, in every run and after its end too. */
  lemma OneInHost(s: State, n: nat, limit: nat, c: nat, d: nat)
    requires n > 0 && Reachable(s, n, limit) && c < |s.cpus| && d < |s.cpus|
    requires HoldsHost(s.cpus[c].pc) && HoldsHost(s.cpus[d].pc)
    ensures c == d && s.host == Some(c)
  {
    ReachableKeeps(s, n, limit);
    assert Local(s, c) && Local(s, d);
  }

  /** No vCPU stays parked behind one in the guest: a wait that it is blocked in is timed, by the limit from now at
      the latest, or has a token to take. */
  lemma ParksEnd(s: State, n: nat, limit: nat, c: nat, d: nat)
    requires n > 1 && Reachable(s, n, limit) && !s.Quit()
    requires c < |s.cpus| && s.cpus[c].pc.InGuest? && d < |s.cpus| && s.cpus[d].pc.ParkWait?
    ensures var pc := s.cpus[d].pc;
            var until := Until(pc.deadline, pc.limit, pc.limited);
            s.cpus[d].token || (until.Some? && until.value <= s.now + limit)
  {
    ReachableKeeps(s, n, limit);
    assert Local(s, c) && Local(s, d) && Wakes(s, d);
    CountOne(s.cpus, c);
    if s.mutex.Held? {
      HolderCounted(s);
      CountTwo(s.cpus, c, s.mutex.owner);
    }
  }

  lemma HolderCounted(s: State)
    requires Inv(s) && s.mutex.Held? && !s.Quit()
    ensures s.cpus[s.mutex.owner].pc.Resuming? && Counted(s.cpus[s.mutex.owner])
  {
    assert Local(s, s.mutex.owner);
  }
}
