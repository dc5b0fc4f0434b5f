/** How a run ends: once halt has completed every vCPU's loop ends, wherever it was. */
module SmpShutdown {
  import opened Wrappers
  import opened Smp
  import opened SmpSafety

  // ----- what halt has done to a vCPU

  /** How many of halt's steps for vCPU c are done: the wake, the cancel flag, immediate_exit, the signal. */
  function Level(s: State, c: nat): nat {
    match s.halt
    case NotStarted => 0
    case Running(_, at) => if at < 4 * c then 0 else if at < 4 * c + 4 then at - 4 * c else 4
    case Finished => 4
  }

  /** The loop has ended, or is about to. */
  predicate Ending(pc: Pc) {
    || pc.EndedStopped? || pc.Ended? || pc.Done? || HaltsAtEnd(pc)
  }

  predicate PastPark(pc: Pc) {
    pc.ParkWoke? || Ending(pc)
  }

  predicate PastCancel(pc: Pc) {
    pc.Clearing? || pc.Canceled? || Ending(pc)
  }

  /** What halt gave the vCPU it still has, or has acted on. */
  predicate Delivered(s: State, c: nat)
    requires c < |s.cpus|
  {
    var x := s.cpus[c];
    && (Level(s, c) >= 1 ==> x.token || PastPark(x.pc))
    && (Level(s, c) >= 2 ==> x.cancel || PastCancel(x.pc))
    && (Level(s, c) >= 3 ==> x.immediateExit || PastCancel(x.pc))
    && (Level(s, c) >= 4 ==> !x.pc.InGuest?)
  }

  /** A vCPU on its way to record the run's end. */
  predicate Pending(pc: Pc) {
    match pc
    case WantHalt(why) => why.ForExit?
    case Halting(why) => why.ForExit?
    case WaitOthers(_) => true
    case LeaveHost(after) => after.Finish?
    case Resume(after) => after.Finish?
    case Resuming(after) => after.Finish?
    case Ended(_) => true
    case _ => false
  }

  /** A vCPU that halts the machine at its loop's end has recorded one. */
  predicate Recorded(s: State, c: nat)
    requires c < |s.cpus|
  {
    HaltsAtEnd(s.cpus[c].pc) ==> s.end.Some?
  }

  ghost predicate SomePending(s: State) {
    exists c :: 0 <= c < |s.cpus| && Pending(s.cpus[c].pc)
  }

  ghost predicate Shut(s: State) {
    && (forall c :: 0 <= c < |s.cpus| ==> Delivered(s, c) && Recorded(s, c))
    && (s.Quit() && s.end.None? ==> SomePending(s) || s.Killed())
  }

  // ----- what a step leaves

  lemma StepMoves(s: State, c: nat, choice: Choice, s': State)
    requires c < |s.cpus| && !s.cpus[c].pc.Halting? && Step(s, c, choice) == Some(s')
    ensures Moves(s, c, s')
  {
    hide AwaitStep, EnterStep, GuestStep, InterruptedStep, ClearingStep, CanceledStep, DispatchStep, WakingAllStep;
    hide StartCountStep, StartSendStep, ParkBeginStep, ParkCheckStep, ParkWaitStep, ParkWokeStep, ParkLateStep;
    hide ResumeStep, ResumingStep, LockHostStep, WantHostStep, InHostStep, LeaveHostStep, WantHaltStep, HaltingStep;
    hide WaitOthersStep, EndedStep;
  }

  lemma EndingStays(s: State, c: nat, choice: Choice, s': State)
    requires c < |s.cpus| && !s.cpus[c].pc.Halting? && Step(s, c, choice) == Some(s') && Ending(s.cpus[c].pc)
    ensures Ending(s'.cpus[c].pc)
  {
    hide Moves, Takes;
    match s.cpus[c].pc
    case EndedStopped =>
    case Ended(e) => assert s' == EndedStep(s, c, e);
    case WantHalt(why) => assert WantHaltStep(s, c, why) == Some(s');
    case Done =>
  }

  /** A vCPU that has acted on its wake or its cancel goes on to its loop's end. */
  lemma PastStays(s: State, c: nat, choice: Choice, s': State)
    requires c < |s.cpus| && !s.cpus[c].pc.Halting? && Step(s, c, choice) == Some(s') && s.Quit()
    ensures PastPark(s.cpus[c].pc) ==> PastPark(s'.cpus[c].pc)
    ensures PastCancel(s.cpus[c].pc) ==> PastCancel(s'.cpus[c].pc)
  {
    if Ending(s.cpus[c].pc) {
      EndingStays(s, c, choice, s');
    } else {
      hide AwaitStep, EnterStep, GuestStep, InterruptedStep, DispatchStep, WakingAllStep;
      hide StartCountStep, StartSendStep, ParkBeginStep, ParkCheckStep, ParkWaitStep, ParkLateStep;
      hide ResumeStep, ResumingStep, LockHostStep, WantHostStep, InHostStep, LeaveHostStep, WantHaltStep, HaltingStep;
      hide WaitOthersStep, EndedStep;
    }
  }

  lemma OwnDelivered(s: State, c: nat, choice: Choice, s': State)
    requires c < |s.cpus| && !s.cpus[c].pc.Halting? && Step(s, c, choice) == Some(s') && Delivered(s, c)
    ensures |s'.cpus| == |s.cpus| && Delivered(s', c)
  {
    hide Step;
    StepMoves(s, c, choice, s');
    if s.Quit() {
      PastStays(s, c, choice, s');
    }
  }

  lemma OtherDelivered(s: State, c: nat, choice: Choice, s': State, d: nat)
    requires c < |s.cpus| && !s.cpus[c].pc.Halting? && Step(s, c, choice) == Some(s')
    requires d < |s.cpus| && d != c && Delivered(s, d)
    ensures |s'.cpus| == |s.cpus| && Delivered(s', d)
  {
    hide Step;
    StepMoves(s, c, choice, s');
  }

  /** halt's own step gives vCPU d the next of its four, or ends. */
  lemma HaltingDelivered(s: State, c: nat, why: HaltFor, s': State, d: nat)
    requires Inv(s) && c < |s.cpus| && s.cpus[c].pc == Halting(why) && HaltingStep(s, c, why) == Some(s')
    requires d < |s.cpus| && Delivered(s, d)
    ensures Delivered(s', d)
  {
    hide Tally;
    assert Local(s, c);
    HaltOwned(s, c);
    if s.halt.at / 4 < |s.cpus| {
      HaltingIsOne(s, c, why, s');
      HaltOneDelivered(s, d);
    }
  }

  lemma HaltOneDelivered(s: State, d: nat)
    requires s.halt.Running? && s.halt.at / 4 < |s.cpus| && d < |s.cpus| && Delivered(s, d)
    ensures Delivered(HaltOne(s), d) && (Recorded(s, d) ==> Recorded(HaltOne(s), d))
    ensures HaltOne(s).cpus[d].pc == s.cpus[d].pc || (s.cpus[d].pc.InGuest? && HaltOne(s).cpus[d].pc.Interrupted?)
  {
    var j := s.halt.at / 4;
    assert s.halt.at == 4 * j + s.halt.at % 4;
  }

  // ----- the end is recorded

  lemma HaltingPending(s: State, c: nat, s': State)
    requires c < |s.cpus| && s.cpus[c].pc.Halting? && HaltingStep(s, c, s.cpus[c].pc.why) == Some(s')
    ensures Pending(s.cpus[c].pc) ==> Pending(s'.cpus[c].pc)
    ensures Recorded(s, c) ==> Recorded(s', c)
  {
    hide HaltOne, Same;
    if s.halt.at / 4 < |s.cpus| {
      HaltOnePc(s, c);
    }
  }

  /** A step of halt's moves no vCPU but out of the guest, and records nothing. */
  lemma HaltOnePc(s: State, c: nat)
    requires c < |s.cpus| && s.halt.Running? && s.halt.at / 4 < |s.cpus|
    ensures var s' := HaltOne(s);
            && |s'.cpus| == |s.cpus| && s'.end == s.end
            && (s'.cpus[c].pc == s.cpus[c].pc || (s.cpus[c].pc.InGuest? && s'.cpus[c].pc.Interrupted?))
  {
    var x := HaltEffect(s.cpus[c], s.halt.at % 4);
    assert x.pc == s.cpus[c].pc || (s.cpus[c].pc.InGuest? && x.pc.Interrupted?);
  }

  lemma PendingStays(s: State, c: nat, choice: Choice, s': State)
    requires c < |s.cpus| && Step(s, c, choice) == Some(s') && Pending(s.cpus[c].pc)
    ensures Pending(s'.cpus[c].pc) || s'.end.Some?
  {
    hide Moves, Takes, Same, Goto, WantHaltStep, HaltingStep, WaitOthersStep, LeaveHostStep, ResumeStep, ResumingStep, EndedStep;
    match s.cpus[c].pc
    case WantHalt(why) => WantHaltPending(s, c);
    case Halting(_) => HaltingPending(s, c, s');
    case WaitOthers(code) => WaitOthersPending(s, c, code, choice, s');
    case LeaveHost(after) => LeaveHostPending(s, c, after);
    case Resume(after) => ResumePending(s, c, after);
    case Resuming(after) => ResumingPending(s, c, after, s');
    case Ended(e) => EndedRecords(s, c, e);
  }

  lemma WantHaltPending(s: State, c: nat)
    requires c < |s.cpus| && s.cpus[c].pc.WantHalt?
    ensures var r := WantHaltStep(s, c, s.cpus[c].pc.why);
            r.Some? && Pending(s.cpus[c].pc) ==> |r.value.cpus| == |s.cpus| && Pending(r.value.cpus[c].pc)
  {
    hide Moves, Takes, Same;
  }

  lemma WaitOthersPending(s: State, c: nat, code: int, choice: Choice, s': State)
    requires c < |s.cpus| && s.cpus[c].pc == WaitOthers(code) && WaitOthersStep(s, c, code, choice).Some?
    requires s' == WaitOthersStep(s, c, code, choice).value
    ensures Pending(s'.cpus[c].pc)
  {
    hide Moves, Takes, OthersDone;
  }

  lemma EndedRecords(s: State, c: nat, e: End)
    requires c < |s.cpus| && s.cpus[c].pc == Ended(e)
    ensures EndedStep(s, c, e).end.Some?
  {
    hide Moves, Takes, Same;
  }

  lemma LeaveHostPending(s: State, c: nat, after: After)
    requires c < |s.cpus| && after.Finish? && s.cpus[c].pc == LeaveHost(after)
    ensures Pending(LeaveHostStep(s, c, after).cpus[c].pc)
  {
  }

  lemma ResumePending(s: State, c: nat, after: After)
    requires c < |s.cpus| && after.Finish? && s.cpus[c].pc == Resume(after)
    ensures var r := ResumeStep(s, c, after); r.Some? ==> |r.value.cpus| == |s.cpus| && Pending(r.value.cpus[c].pc)
  {
    hide Moves, Takes, Same;
  }

  /** A turn of the waking loop leaves its own vCPU where it is. */
  lemma ResumingStays(s: State, c: nat, after: After)
    requires c < |s.cpus| && s.cpus[c].pc == Resuming(after) && ResumingStep(s, c, after).Some? && s.mutex.at < |s.cpus|
    ensures var s' := ResumingStep(s, c, after).value; |s'.cpus| == |s.cpus| && s'.cpus[c] == s.cpus[c]
  {
    hide Moves, Takes, Same;
  }

  lemma ResumingPending(s: State, c: nat, after: After, s': State)
    requires c < |s.cpus| && after.Finish? && s.cpus[c].pc == Resuming(after) && ResumingStep(s, c, after).Some?
    requires s' == ResumingStep(s, c, after).value
    ensures Pending(s'.cpus[c].pc)
  {
    hide Moves, Takes, Same;
    if s.mutex.at < |s.cpus| {
      ResumingStays(s, c, after);
      hide ResumingStep;
    }
  }

  lemma OwnRecorded(s: State, c: nat, choice: Choice, s': State)
    requires c < |s.cpus| && Step(s, c, choice) == Some(s') && Recorded(s, c)
    ensures |s'.cpus| == |s.cpus| && Recorded(s', c)
  {
    if s.cpus[c].pc.Halting? {
      HaltingPending(s, c, s');
    } else {
      StepMoves(s, c, choice, s');
    }
  }

  /** An end once recorded is the run's. */
  lemma EndStays(s: State, c: nat, choice: Choice, s': State)
    requires c < |s.cpus| && Step(s, c, choice) == Some(s') && s.end.Some?
    ensures s'.end == s.end
  {
    if s.cpus[c].pc.Halting? {
      assert Some(s') == HaltingStep(s, c, s.cpus[c].pc.why);
    } else {
      hide Step;
      StepMoves(s, c, choice, s');
    }
  }

  /** Every step of another's, halt's included, leaves a vCPU where it is, but in the guest. */
  lemma OtherPc(s: State, c: nat, choice: Choice, s': State, d: nat)
    requires c < |s.cpus| && Step(s, c, choice) == Some(s') && d < |s.cpus| && d != c
    ensures |s'.cpus| == |s.cpus|
    ensures s'.cpus[d].pc == s.cpus[d].pc || (s.halt.Running? && s.cpus[d].pc.InGuest? && s'.cpus[d].pc.Interrupted?)
  {
    if s.cpus[c].pc.Halting? {
      assert Some(s') == HaltingStep(s, c, s.cpus[c].pc.why);
    } else {
      hide Step;
      StepMoves(s, c, choice, s');
    }
  }

  lemma KilledStays(s: State, c: nat, choice: Choice, s': State)
    requires c < |s.cpus| && Step(s, c, choice) == Some(s')
    ensures s'.Killed() == s.Killed()
  {
    if s.cpus[c].pc.Halting? {
      assert Some(s') == HaltingStep(s, c, s.cpus[c].pc.why);
    } else {
      hide Step;
      StepMoves(s, c, choice, s');
    }
  }

  lemma SomePendingStays(s: State, c: nat, choice: Choice, s': State)
    requires c < |s.cpus| && Step(s, c, choice) == Some(s') && SomePending(s) && s'.end.None?
    ensures SomePending(s')
  {
    hide Step;
    StepSize(s, c, choice, s');
    var d :| 0 <= d < |s.cpus| && Pending(s.cpus[d].pc);
    if d == c {
      PendingStays(s, c, choice, s');
    } else {
      OtherPc(s, c, choice, s', d);
    }
    assert Pending(s'.cpus[d].pc);
  }

  /** The run ends for an exit under way, or for an end that is recorded. */
  lemma QuitPending(s: State, c: nat, choice: Choice, s': State)
    requires c < |s.cpus| && Step(s, c, choice) == Some(s') && !s.Quit() && s'.Quit() && Recorded(s, c)
    ensures s'.end.Some? || SomePending(s')
  {
    QuitsByWant(s, c, choice, s');
    hide Moves, Takes;
    var why := s.cpus[c].pc.why;
    assert Some(s') == WantHaltStep(s, c, why);
    assert s'.cpus[c].pc == Halting(why) && s'.end == s.end;
    if why.ForExit? {
      assert Pending(s'.cpus[c].pc);
    }
  }

  lemma QuitsByWant(s: State, c: nat, choice: Choice, s': State)
    requires c < |s.cpus| && Step(s, c, choice) == Some(s') && !s.Quit() && s'.Quit()
    ensures s.cpus[c].pc.WantHalt?
  {
    if !s.cpus[c].pc.Halting? {
      hide Step;
      StepMoves(s, c, choice, s');
    }
  }

  lemma StepShuts(s: State, c: nat, choice: Choice, s': State)
    requires Inv(s) && Shut(s) && c < |s.cpus| && Step(s, c, choice) == Some(s')
    ensures Shut(s')
  {
    hide Step, Inv, Delivered, Recorded, SomePending;
    OwnRecorded(s, c, choice, s');
    forall d | 0 <= d < |s.cpus|
      ensures Delivered(s', d) && Recorded(s', d)
    {
      DeliveredStays(s, c, choice, s', d);
      if d != c {
        RecordedStays(s, c, choice, s', d);
      }
    }
    if s'.Quit() && s'.end.None? {
      if s.Quit() {
        if s.end.Some? {
          EndStays(s, c, choice, s');
        }
        KilledStays(s, c, choice, s');
        if SomePending(s) {
          SomePendingStays(s, c, choice, s');
        }
      } else {
        QuitPending(s, c, choice, s');
      }
    }
  }

  lemma RecordedStays(s: State, c: nat, choice: Choice, s': State, d: nat)
    requires c < |s.cpus| && Step(s, c, choice) == Some(s') && d < |s.cpus| && d != c && Recorded(s, d)
    ensures |s'.cpus| == |s.cpus| && Recorded(s', d)
  {
    hide Step;
    OtherPc(s, c, choice, s', d);
    if s.end.Some? {
      EndStays(s, c, choice, s');
    }
  }

  lemma DeliveredStays(s: State, c: nat, choice: Choice, s': State, d: nat)
    requires Inv(s) && c < |s.cpus| && Step(s, c, choice) == Some(s') && d < |s.cpus| && Delivered(s, d)
    ensures |s'.cpus| == |s.cpus| && Delivered(s', d)
  {
    hide Inv, Delivered;
    if s.cpus[c].pc.Halting? {
      HaltingDelivered(s, c, s.cpus[c].pc.why, s', d);
    } else {
      hide Step;
      if d == c {
        OwnDelivered(s, c, choice, s');
      } else {
        OtherDelivered(s, c, choice, s', d);
      }
    }
  }

  // ----- the measure

  /** How far a vCPU is from its loop's end, of a machine of n vCPUs whose halt has completed. */
  function Rank(pc: Pc, n: nat): nat {
    match pc
    case Done => 0
    case EndedStopped => 1
    case Ended(_) => 2
    case ParkWoke(_, _, _, _) => 2
    case ParkWait(_, _, _) => 3
    case Canceled => 3
    case ParkCheck(_, _) => 4
    case Clearing => 4
    case ParkBegin(_) => 5
    case Interrupted => 5
    case Enter => 6
    case AwaitStart => 7
    case Resuming(_) => 7
    case StartSend(_) => 7
    case StartCount(_) => 8
    case WakingAll(at) => if at <= n then 7 + n - at else 7
    case Resume(_) => 9 + n
    case LeaveHost(_) => 10 + n
    case ParkLate(_, _) => 10 + n
    case WaitOthers(_) => 11 + n
    case WantHalt(why) => if why.ForEnd? then 1 else 12 + n
    case Halting(why) => if why.ForEnd? then 1 else 12 + n
    case InHost(_) => 13 + n
    case WantHost(_) => 14 + n
    case LockHost(_) => 15 + n
    case Dispatch(_) => 16 + n
    case InGuest => 17 + n
  }

  function Tail(mutex: Mutex, n: nat): nat {
    if mutex.Held? && mutex.at <= n then n + 1 - mutex.at else 0
  }

  function Sum(cpus: seq<Cpu>, n: nat): nat {
    if cpus == [] then 0 else Sum(cpus[..|cpus| - 1], n) + Rank(cpus[|cpus| - 1].pc, n)
  }

  /** The steps that are left to a machine whose halt has completed, at most. */
  function Work(s: State): nat {
    Sum(s.cpus, |s.cpus|) + Tail(s.mutex, |s.cpus|)
  }

  lemma {:induction false} SumSame(cpus: seq<Cpu>, cpus': seq<Cpu>, n: nat)
    requires |cpus'| == |cpus| && forall d :: 0 <= d < |cpus| ==> cpus'[d].pc == cpus[d].pc
    ensures Sum(cpus', n) == Sum(cpus, n)
  {
    hide Rank;
    if cpus != [] {
      SumSame(cpus[..|cpus| - 1], cpus'[..|cpus| - 1], n);
    }
  }

  lemma {:induction false} SumMoves(cpus: seq<Cpu>, cpus': seq<Cpu>, c: nat, n: nat)
    requires |cpus'| == |cpus| && c < |cpus| && forall d :: 0 <= d < |cpus| && d != c ==> cpus'[d].pc == cpus[d].pc
    ensures Sum(cpus', n) + Rank(cpus[c].pc, n) == Sum(cpus, n) + Rank(cpus'[c].pc, n)
  {
    hide Rank;
    var last := |cpus| - 1;
    if c == last {
      SumSame(cpus[..last], cpus'[..last], n);
    } else {
      SumMoves(cpus[..last], cpus'[..last], c, n);
    }
  }

  predicate Falls(s: State, c: nat, s': State)
    requires c < |s.cpus| == |s'.cpus|
  {
    var n := |s.cpus|;
    Rank(s'.cpus[c].pc, n) + Tail(s'.mutex, n) < Rank(s.cpus[c].pc, n) + Tail(s.mutex, n)
  }

  predicate Falling(s: State, c: nat, s': Option<State>)
    requires c < |s.cpus|
  {
    s'.Some? ==> |s'.value.cpus| == |s.cpus| && Falls(s, c, s'.value)
  }

  // Each step of a vCPU, in a machine whose halt has completed where that is needed.

  lemma AwaitFalls(s: State, c: nat, choice: Choice)
    requires c < |s.cpus| && s.cpus[c].pc.AwaitStart?
    ensures Falling(s, c, AwaitStep(s, c, choice))
  {
    hide Moves, Takes, Tail;
  }

  lemma EnterFalls(s: State, c: nat, choice: Choice)
    requires c < |s.cpus| && s.cpus[c].pc.Enter? && Delivered(s, c) && s.halt.Finished?
    ensures Falling(s, c, EnterStep(s, c, choice))
  {
    hide Moves, Takes, Tail;
  }

  lemma GuestFalls(s: State, c: nat, choice: Choice)
    requires c < |s.cpus| && s.cpus[c].pc.InGuest?
    ensures Falling(s, c, GuestStep(s, c, choice))
  {
    hide Moves, Takes, Tail;
  }

  lemma InterruptedFalls(s: State, c: nat)
    requires c < |s.cpus| && s.cpus[c].pc.Interrupted? && Delivered(s, c) && s.halt.Finished?
    ensures Falling(s, c, Some(InterruptedStep(s, c)))
  {
    hide Moves, Takes, Tail;
  }

  lemma ClearingFalls(s: State, c: nat)
    requires c < |s.cpus| && s.cpus[c].pc.Clearing?
    ensures Falling(s, c, Some(ClearingStep(s, c)))
  {
    hide Moves, Takes, Tail;
  }

  lemma CanceledFalls(s: State, c: nat)
    requires c < |s.cpus| && s.cpus[c].pc.Canceled? && s.halt.Finished?
    ensures Falling(s, c, Some(CanceledStep(s, c)))
  {
    hide Moves, Takes, Tail;
  }

  lemma DispatchFalls(s: State, c: nat)
    requires c < |s.cpus| && s.cpus[c].pc.Dispatch?
    ensures Falling(s, c, Some(DispatchStep(s, c, s.cpus[c].pc.call)))
  {
    hide Moves, Takes, Tail, DispatchStep;
    DispatchTo(s, c);
  }

  /** Where an exit is answered. */
  predicate Answers(pc: Pc) {
    pc.Enter? || pc == WakingAll(0) || pc.StartCount? || pc.ParkBegin? || pc.LockHost? || pc.Ended?
  }

  lemma DispatchTo(s: State, c: nat)
    requires c < |s.cpus| && s.cpus[c].pc.Dispatch?
    ensures var r := DispatchStep(s, c, s.cpus[c].pc.call);
            |r.cpus| == |s.cpus| && r.mutex == s.mutex && Answers(r.cpus[c].pc)
  {
    hide Moves, Takes;
    match s.cpus[c].pc.call
    case Start(a) => StartTo(s, c, a);
    case Wake(a) => WakeTo(s, c, a);
    case _ =>
  }

  lemma StartTo(s: State, c: nat, a: int)
    requires c < |s.cpus|
    ensures var r := DispatchStep(s, c, Start(a));
            |r.cpus| == |s.cpus| && r.mutex == s.mutex && Answers(r.cpus[c].pc)
  {
    hide Moves, Takes, Same;
  }

  lemma WakeTo(s: State, c: nat, a: int)
    requires c < |s.cpus|
    ensures var r := DispatchStep(s, c, Wake(a));
            |r.cpus| == |s.cpus| && r.mutex == s.mutex && Answers(r.cpus[c].pc)
  {
    hide Moves, Takes, Same;
  }

  lemma WakingAllFalls(s: State, c: nat)
    requires c < |s.cpus| && s.cpus[c].pc.WakingAll?
    ensures Falling(s, c, Some(WakingAllStep(s, c, s.cpus[c].pc.at)))
  {
    hide Moves, Takes, Tail;
  }

  lemma StartCountFalls(s: State, c: nat)
    requires c < |s.cpus| && s.cpus[c].pc.StartCount?
    ensures Falling(s, c, StartCountStep(s, c, s.cpus[c].pc.target))
  {
    hide Moves, Takes, Tail;
  }

  lemma StartSendFalls(s: State, c: nat)
    requires c < |s.cpus| && s.cpus[c].pc.StartSend?
    ensures Falling(s, c, StartSendStep(s, c, s.cpus[c].pc.target))
  {
    hide Moves, Takes, Tail;
  }

  lemma ParkBeginFalls(s: State, c: nat)
    requires c < |s.cpus| && s.cpus[c].pc.ParkBegin?
    ensures Falling(s, c, ParkBeginStep(s, c, s.cpus[c].pc.deadline))
  {
    hide Moves, Takes, Tail;
  }

  lemma ParkCheckFalls(s: State, c: nat)
    requires c < |s.cpus| && s.cpus[c].pc.ParkCheck?
    ensures Falling(s, c, ParkCheckStep(s, c, s.cpus[c].pc.deadline, s.cpus[c].pc.limit))
  {
    hide Moves, Takes, Tail;
  }

  lemma ParkWaitFalls(s: State, c: nat, choice: Choice)
    requires c < |s.cpus| && s.cpus[c].pc.ParkWait?
    ensures Falling(s, c, ParkWaitStep(s, c, s.cpus[c].pc.deadline, s.cpus[c].pc.limit, s.cpus[c].pc.limited, choice))
  {
    hide Moves, Takes, Tail;
  }

  lemma ParkLateFalls(s: State, c: nat)
    requires c < |s.cpus| && s.cpus[c].pc.ParkLate?
    ensures Falling(s, c, ParkLateStep(s, c, s.cpus[c].pc.deadline, s.cpus[c].pc.limit))
  {
    hide Moves, Takes, Tail;
  }

  lemma ResumeFalls(s: State, c: nat)
    requires c < |s.cpus| && s.cpus[c].pc.Resume?
    ensures Falling(s, c, ResumeStep(s, c, s.cpus[c].pc.after))
  {
    hide Moves, Takes, Same;
  }

  lemma ResumingFalls(s: State, c: nat)
    requires c < |s.cpus| && s.cpus[c].pc.Resuming? && (s.mutex.Held? ==> s.mutex.at <= |s.cpus|)
    ensures Falling(s, c, ResumingStep(s, c, s.cpus[c].pc.after))
  {
    hide Moves, Takes, Same;
  }

  lemma LockHostFalls(s: State, c: nat)
    requires c < |s.cpus| && s.cpus[c].pc.LockHost?
    ensures Falling(s, c, LockHostStep(s, c, s.cpus[c].pc.call))
  {
    hide Moves, Takes, Tail;
  }

  lemma WantHostFalls(s: State, c: nat, choice: Choice)
    requires c < |s.cpus| && s.cpus[c].pc.WantHost?
    ensures Falling(s, c, WantHostStep(s, c, s.cpus[c].pc.call, choice))
  {
    hide Moves, Takes, Tail;
  }

  lemma InHostFalls(s: State, c: nat, choice: Choice)
    requires c < |s.cpus| && s.cpus[c].pc.InHost?
    ensures Falling(s, c, InHostStep(s, c, s.cpus[c].pc.call, choice))
  {
    hide Moves, Takes, Tail, InHostStep;
    HostTo(s, c, choice);
  }

  lemma HostTo(s: State, c: nat, choice: Choice)
    requires c < |s.cpus| && s.cpus[c].pc.InHost?
    ensures var r := InHostStep(s, c, s.cpus[c].pc.call, choice);
            r.Some? ==> |r.value.cpus| == |s.cpus| && r.value.mutex == s.mutex && HostLeft(r.value.cpus[c].pc)
  {
    hide Moves, Takes, Same;
  }

  predicate HostLeft(pc: Pc) {
    pc.LeaveHost? || (pc.WantHalt? && pc.why.ForExit?)
  }

  lemma LeaveHostFalls(s: State, c: nat)
    requires c < |s.cpus| && s.cpus[c].pc.LeaveHost?
    ensures Falling(s, c, Some(LeaveHostStep(s, c, s.cpus[c].pc.after)))
  {
    hide Moves, Takes, Tail;
  }

  lemma WaitOthersFalls(s: State, c: nat, choice: Choice)
    requires c < |s.cpus| && s.cpus[c].pc.WaitOthers?
    ensures Falling(s, c, WaitOthersStep(s, c, s.cpus[c].pc.code, choice))
  {
    hide Moves, Takes, Tail;
  }

  lemma WantHaltFalls(s: State, c: nat)
    requires c < |s.cpus| && s.cpus[c].pc.WantHalt? && s.halt.Finished?
    ensures Falling(s, c, WantHaltStep(s, c, s.cpus[c].pc.why))
  {
    hide Moves, Takes, Tail;
  }

  lemma ParkWokeFalls(s: State, c: nat)
    requires c < |s.cpus| && s.cpus[c].pc.ParkWoke? && s.halt.Finished?
    ensures var pc := s.cpus[c].pc; Falling(s, c, Some(ParkWokeStep(s, c, pc.deadline, pc.limit, pc.limited, pc.woken)))
  {
    hide Moves, Takes, Tail, Passed;
  }

  lemma EndedFalls(s: State, c: nat)
    requires c < |s.cpus|
    ensures s.cpus[c].pc.EndedStopped? ==> Falling(s, c, Some(Goto(s, c, Done)))
    ensures s.cpus[c].pc.Ended? ==> Falling(s, c, Some(EndedStep(s, c, s.cpus[c].pc.e)))
  {
    hide Moves, Takes, Tail;
  }

  lemma StepFalling(s: State, c: nat, choice: Choice, s': State)
    requires s.halt.Finished? && c < |s.cpus| && Step(s, c, choice) == Some(s')
    requires Delivered(s, c) && !s.cpus[c].pc.Halting? && (s.mutex.Held? ==> s.mutex.at <= |s.cpus|)
    ensures Falling(s, c, Some(s'))
  {
    hide Falling, Delivered, Moves, Takes, Same;
    hide AwaitStep, EnterStep, GuestStep, InterruptedStep, ClearingStep, CanceledStep, DispatchStep, WakingAllStep;
    hide StartCountStep, StartSendStep, ParkBeginStep, ParkCheckStep, ParkWaitStep, ParkWokeStep, ParkLateStep;
    hide ResumeStep, ResumingStep, LockHostStep, WantHostStep, InHostStep, LeaveHostStep, WantHaltStep, HaltingStep;
    hide WaitOthersStep, EndedStep, Goto;
    match s.cpus[c].pc
    case AwaitStart => AwaitFalls(s, c, choice);
    case Enter => EnterFalls(s, c, choice);
    case InGuest => GuestFalls(s, c, choice);
    case Interrupted => InterruptedFalls(s, c);
    case Clearing => ClearingFalls(s, c);
    case Canceled => CanceledFalls(s, c);
    case Dispatch(_) => DispatchFalls(s, c);
    case WakingAll(_) => WakingAllFalls(s, c);
    case StartCount(_) => StartCountFalls(s, c);
    case StartSend(_) => StartSendFalls(s, c);
    case ParkBegin(_) => ParkBeginFalls(s, c);
    case ParkCheck(_, _) => ParkCheckFalls(s, c);
    case ParkWait(_, _, _) => ParkWaitFalls(s, c, choice);
    case ParkWoke(_, _, _, _) => ParkWokeFalls(s, c);
    case ParkLate(_, _) => ParkLateFalls(s, c);
    case Resume(_) => ResumeFalls(s, c);
    case Resuming(_) => ResumingFalls(s, c);
    case LockHost(_) => LockHostFalls(s, c);
    case WantHost(_) => WantHostFalls(s, c, choice);
    case InHost(_) => InHostFalls(s, c, choice);
    case LeaveHost(_) => LeaveHostFalls(s, c);
    case WaitOthers(_) => WaitOthersFalls(s, c, choice);
    case WantHalt(_) => WantHaltFalls(s, c);
    case EndedStopped => EndedFalls(s, c);
    case Ended(_) => EndedFalls(s, c);
  }

  /** After halt has completed every step brings the loops' ends nearer. */
  lemma StepFalls(s: State, c: nat, choice: Choice, s': State)
    requires Inv(s) && Shut(s) && s.halt.Finished? && c < |s.cpus| && Step(s, c, choice) == Some(s')
    ensures Work(s') < Work(s) && s'.halt.Finished?
  {
    hide Step, Falls, Local, Delivered;
    assert Local(s, c) && Delivered(s, c);
    NotHalting(s, c);
    StepFalling(s, c, choice, s');
    StepMoves(s, c, choice, s');
    WorkFalls(s, c, s');
  }

  lemma NotHalting(s: State, c: nat)
    requires c < |s.cpus| && Local(s, c) && s.halt.Finished?
    ensures !s.cpus[c].pc.Halting?
  {
  }

  lemma WorkFalls(s: State, c: nat, s': State)
    requires c < |s.cpus| && Moves(s, c, s') && Falls(s, c, s')
    ensures Work(s') < Work(s)
  {
    SumMoves(s.cpus, s'.cpus, c, |s.cpus|);
  }

  // ----- whole runs

  /** How many of the events are a vCPU's. */
  function Runs(events: seq<Event>): nat {
    if events == [] then 0
    else Runs(events[..|events| - 1]) + if events[|events| - 1].Run? then 1 else 0
  }

  lemma TickShuts(s: State, ns: nat)
    requires Shut(s)
    ensures Shut(s.(now := s.now + ns)) && Work(s.(now := s.now + ns)) == Work(s)
  {
    var s' := s.(now := s.now + ns);
    forall d | 0 <= d < |s.cpus|
      ensures Delivered(s', d) && Recorded(s', d)
    {
      assert Delivered(s, d) && Recorded(s, d);
    }
    if SomePending(s) {
      var c :| 0 <= c < |s.cpus| && Pending(s.cpus[c].pc);
      assert Pending(s'.cpus[c].pc);
    }
  }

  lemma WatchShuts(s: State, s': State)
    requires Inv(s) && Shut(s) && WatchStep(s) == Some(s')
    ensures Shut(s') && s'.end == s.end
    ensures s.halt.Finished? ==> s'.halt.Finished? && Work(s') == Work(s)
  {
    hide Local, Tally, Pending, Delivered, Recorded, HaltOne;
    if s.watch.Halts? && s.halt.at / 4 < |s.cpus| {
      HaltOneShuts(s);
    } else {
      forall d | 0 <= d < |s.cpus|
        ensures Delivered(s', d) && Recorded(s', d)
      {
        assert Delivered(s, d) && Recorded(s, d);
        WatchDelivered(s, s', d);
      }
    }
  }

  lemma WatchDelivered(s: State, s': State, d: nat)
    requires WatchStep(s) == Some(s') && !(s.watch.Halts? && s.halt.Running? && s.halt.at / 4 < |s.cpus|)
    requires d < |s.cpus| && Delivered(s, d) && Recorded(s, d)
    ensures Delivered(s', d) && Recorded(s', d)
  {
  }

  lemma HaltOneShuts(s: State)
    requires Shut(s) && s.halt.Running? && s.halt.at / 4 < |s.cpus| && s.watch.Halts?
    ensures Shut(HaltOne(s)) && HaltOne(s).end == s.end && HaltOne(s).halt.Running?
  {
    hide Delivered, Recorded, HaltEffect;
    forall d | 0 <= d < |s.cpus|
      ensures Delivered(HaltOne(s), d) && Recorded(HaltOne(s), d)
    {
      HaltOneDelivered(s, d);
    }
  }

  /** What holds of a machine holds after any run of it. */
  lemma {:induction false} RunShuts(s: State, events: seq<Event>, s': State)
    requires Inv(s) && Shut(s) && Exec(s, events) == Some(s')
    ensures Inv(s') && Shut(s')
    ensures s.end.Some? ==> s'.end == s.end
    ensures s.halt.Finished? ==> s'.halt.Finished? && Work(s') + Runs(events) <= Work(s)
  {
    hide Inv, Shut, Step, Work;
    if events != [] {
      var last := |events| - 1;
      var before := Exec(s, events[..last]).value;
      RunShuts(s, events[..last], before);
      match events[last]
      case Tick(ns) =>
        TickKeeps(before, ns);
        TickShuts(before, ns);
      case Run(c, choice) =>
        StepKeeps(before, c, choice, s');
        StepShuts(before, c, choice, s');
        if s.halt.Finished? {
          StepFalls(before, c, choice, s');
        }
        if s.end.Some? {
          EndStays(before, c, choice, s');
        }
      case Watchdog =>
        WatchKeeps(before, s');
        WatchShuts(before, s');
    }
  }

  lemma InitShuts(n: nat, limit: nat)
    requires n > 0
    ensures Shut(Init(n, limit))
  {
  }

  lemma ReachableShuts(s: State, n: nat, limit: nat)
    requires n > 0 && Reachable(s, n, limit)
    ensures Inv(s) && Shut(s) && |s.cpus| == n
  {
    hide Inv, Shut, Init;
    var events :| Exec(Init(n, limit), events) == Some(s);
    InitKeeps(n, limit);
    InitShuts(n, limit);
    RunShuts(Init(n, limit), events, s);
    RunKeeps(n, limit, events, s);
  }

  /** Once halt has completed, the vCPUs' loops end: no run of them is longer than the work left. */
  lemma HaltedEnds(s: State, n: nat, limit: nat, events: seq<Event>, s': State)
    requires n > 0 && Reachable(s, n, limit) && s.halt.Finished? && Exec(s, events) == Some(s')
    ensures Runs(events) <= Work(s)
  {
    hide Inv, Shut, Work;
    ReachableShuts(s, n, limit);
    RunShuts(s, events, s');
  }

  /** The run's end is the first that is recorded. */
  lemma FirstEnd(s: State, n: nat, limit: nat, events: seq<Event>, s': State)
    requires n > 0 && Reachable(s, n, limit) && s.end.Some? && Exec(s, events) == Some(s')
    ensures s'.end == s.end
  {
    hide Inv, Shut, Work;
    ReachableShuts(s, n, limit);
    RunShuts(s, events, s');
  }

  /** Every loop has ended. */
  ghost predicate Over(s: State) {
    forall c :: 0 <= c < |s.cpus| ==> s.cpus[c].pc.Done?
  }

  /** When every loop has ended there is an end to report, but where the watchdog has ended the guest. */
  lemma EndKnown(s: State, n: nat, limit: nat)
    requires n > 0 && Reachable(s, n, limit) && Over(s)
    ensures s.Quit() && (s.end.Some? || s.Killed())
  {
    ReachableShuts(s, n, limit);
    assert Local(s, 0);
  }

  lemma ExecNext(s: State, events: seq<Event>, e: Event, s': State, s'': State)
    requires Exec(s, events) == Some(s') && Apply(s', e) == Some(s'')
    ensures Exec(s, events + [e]) == Some(s'')
  {
    hide Apply;
    assert (events + [e])[..|events|] == events;
  }

  lemma TwoSteps(s: State, e0: Event, e1: Event, s1: State, s2: State)
    requires Apply(s, e0) == Some(s1) && Apply(s1, e1) == Some(s2)
    ensures Exec(s, [e0, e1]) == Some(s2)
  {
    hide Apply;
    assert Exec(s, []) == Some(s);
    ExecNext(s, [], e0, s, s1);
    ExecNext(s, [] + [e0], e1, s1, s2);
    assert [] + [e0] + [e1] == [e0, e1];
  }

  lemma FourSteps(s: State, events: seq<Event>, s1: State, s2: State, s3: State, s4: State)
    requires |events| == 4 && Apply(s, events[0]) == Some(s1) && Apply(s1, events[1]) == Some(s2)
    requires Apply(s2, events[2]) == Some(s3) && Apply(s3, events[3]) == Some(s4)
    ensures Exec(s, events) == Some(s4)
  {
    hide Apply;
    TwoSteps(s, events[0], events[1], s1, s2);
    TwoSteps(s2, events[2], events[3], s3, s4);
    ExecJoin(s, [events[0], events[1]], [events[2], events[3]], s2);
    assert [events[0], events[1]] + [events[2], events[3]] == events;
  }

  lemma {:induction false} ExecJoin(s: State, a: seq<Event>, b: seq<Event>, s': State)
    requires Exec(s, a) == Some(s')
    ensures Exec(s, a + b) == Exec(s', b)
    decreases |b|
  {
    hide Apply;
    if b == [] {
      assert a + b == a;
    } else {
      assert (a + b)[..|a + b| - 1] == a + b[..|b| - 1];
      ExecJoin(s, a, b[..|b| - 1], s');
    }
  }

  lemma Reaches(s0: State, events: seq<Event>, s: State, n: nat, limit: nat)
    requires n > 0 && s0 == Init(n, limit) && Exec(s0, events) == Some(s)
    ensures Reachable(s, n, limit)
  {
  }

  /** The boot vCPU from its start to waiting for the Host, with nobody else in the guest. */
  lemma Asks(s: State) returns (events: seq<Event>, s': State)
    requires s.cpus != [] && s.cpus[0].pc.Enter? && !s.cpus[0].immediateExit && s.mutex.Free?
    ensures Exec(s, events) == Some(s') && s'.cpus == s.cpus[0 := s.cpus[0].(pc := WantHost(Host))]
    ensures s'.halt == s.halt && s'.watch == s.watch && s'.end == s.end
  {
    hide Moves, Takes, Exec;
    events := [Run(0, Next), Run(0, Calls(Host)), Run(0, Next), Run(0, Next)];
    var s1 := Goto(s, 0, InGuest);
    var s2 := Goto(s1, 0, Dispatch(Host));
    var s3 := Goto(s2, 0, LockHost(Host));
    s' := LockHostStep(s3, 0, Host).value;
    FourSteps(s, events, s1, s2, s3, s');
  }

  /** The watchdog ends the guest meanwhile: the loop that waits for the Host ends, and records nothing. */
  lemma Stops(s: State) returns (events: seq<Event>, s': State)
    requires s.cpus != [] && s.cpus[0].pc.WantHost? && s.watch.Watching? && s.halt.NotStarted?
    ensures Exec(s, events) == Some(s') && s'.cpus == s.cpus[0 := s.cpus[0].(pc := Done)]
    ensures s'.Quit() && s'.Killed() && s'.end == s.end
  {
    hide Moves, Takes, Exec;
    events := [Watchdog, Watchdog, Run(0, Other), Run(0, Next)];
    var s1 := s.(watch := Killing);
    var s2 := s1.(halt := Running(|s.cpus|, 0), watch := Halts);
    var s3 := Goto(s2, 0, EndedStopped);
    s' := Goto(s3, 0, Done);
    FourSteps(s, events, s1, s2, s3, s');
  }

  /** A vCPU that has not been started leaves when the run has ended. */
  lemma Leaves(s: State, k: nat) returns (s': State)
    requires k < |s.cpus| && s.Quit() && s.cpus[k].pc.AwaitStart?
    ensures Exec(s, [Run(k, Other), Run(k, Next)]) == Some(s') && s'.cpus == s.cpus[k := s.cpus[k].(pc := Done)]
    ensures s'.halt == s.halt && s'.watch == s.watch && s'.end == s.end
  {
    hide Moves, Takes, Exec;
    s' := Goto(Goto(s, k, EndedStopped), k, Done);
    TwoSteps(s, Run(k, Other), Run(k, Next), Goto(s, k, EndedStopped), s');
  }

  /** And so do all of them, from the k-th on. */
  lemma {:induction false} AllLeave(s: State, k: nat) returns (events: seq<Event>, s': State)
    requires k <= |s.cpus| && s.Quit()
    requires forall c :: 0 <= c < k ==> s.cpus[c].pc.Done?
    requires forall c :: k <= c < |s.cpus| ==> s.cpus[c].pc.AwaitStart?
    ensures Exec(s, events) == Some(s') && Over(s') && s'.watch == s.watch && s'.end == s.end
    decreases |s.cpus| - k
  {
    if k == |s.cpus| {
      events, s' := [], s;
    } else {
      var next := Leaves(s, k);
      var rest;
      rest, s' := AllLeave(next, k + 1);
      events := [Run(k, Other), Run(k, Next)] + rest;
      ExecJoin(s, [Run(k, Other), Run(k, Next)], rest, next);
    }
  }

  /** Of any number of vCPUs, a run that the watchdog ends while the boot vCPU asks for the Host: every loop
      ends, and no end is recorded. */
  lemma NoEnd(n: nat, limit: nat) returns (events: seq<Event>, s: State)
    requires n > 0
    ensures Exec(Init(n, limit), events) == Some(s) && Over(s) && s.Killed() && s.end.None?
  {
    hide Exec;
    var asking, s1 := Asks(Init(n, limit));
    var stopping, s2 := Stops(s1);
    var leaving;
    leaving, s := AllLeave(s2, 1);
    ExecJoin(Init(n, limit), asking, stopping, s1);
    ExecJoin(Init(n, limit), asking + stopping, leaving, s2);
    events := asking + stopping + leaving;
  }

  /** Without a watchdog nothing is killed. */
  lemma {:induction false} Unwatched(s: State, events: seq<Event>, s': State)
    requires Exec(s, events) == Some(s') && !s.Killed() && Watchdog !in events
    ensures !s'.Killed()
  {
    hide Step;
    if events != [] {
      var last := |events| - 1;
      var before := Exec(s, events[..last]).value;
      assert events[last] in events;
      Unwatched(s, events[..last], before);
      match events[last]
      case Tick(_) =>
      case Run(c, choice) => KilledStays(before, c, choice, s');
    }
  }

  /** Every run of a machine has an end to report when its loops have ended exactly when it has no watchdog. */
  lemma EndExact(n: nat, limit: nat, watched: bool)
    requires n > 0
    ensures (forall events, s :: Exec(Init(n, limit), events) == Some(s) && (watched || Watchdog !in events) && Over(s)
               ==> s.end.Some?)
            <==> !watched
  {
    hide Exec, Init, Over;
    if watched {
      var events, s := NoEnd(n, limit);
    } else {
      forall events, s | Exec(Init(n, limit), events) == Some(s) && Watchdog !in events && Over(s)
        ensures s.end.Some?
      {
        EndUnwatched(n, limit, events, s);
      }
    }
  }

  lemma EndUnwatched(n: nat, limit: nat, events: seq<Event>, s: State)
    requires n > 0 && Exec(Init(n, limit), events) == Some(s) && Watchdog !in events && Over(s)
    ensures s.end.Some?
  {
    hide Exec;
    Reaches(Init(n, limit), events, s, n, limit);
    EndKnown(s, n, limit);
    Unwatched(Init(n, limit), events, s);
  }

  /** Some vCPU can go on, or the watchdog can with a halt that it has begun. */
  ghost predicate CanStep(s: State) {
    || (exists c: nat, choice: Choice :: c < |s.cpus| && Step(s, c, choice).Some?)
    || (s.watch.Halts? && WatchStep(s).Some?)
  }

  /** A vCPU that waits for no other can go on, once halt has completed; one that waits for the mutex can if it is free. */
  lemma OneSteps(s: State, c: nat)
    requires c < |s.cpus| && Local(s, c) && Delivered(s, c) && s.halt.Finished?
    requires s.mutex.Free? || (s.mutex.owner == c && s.cpus[c].pc.Resuming?)
    requires !s.cpus[c].pc.Done? && !s.cpus[c].pc.WaitOthers?
    ensures Step(s, c, Next).Some? || Step(s, c, Other).Some? || Step(s, c, Calls(Self)).Some?
  {
    hide Moves, Takes, Same;
  }

  /** The end of a run cannot deadlock: a vCPU can go on until every loop has ended, although one that
      exits holds the Host's lock and waits for the others. */
  lemma NoDeadlock(s: State, n: nat, limit: nat)
    requires n > 0 && Reachable(s, n, limit) && s.Quit()
    ensures CanStep(s) || Over(s)
  {
    hide Step, Local, Delivered, Recorded, Tally;
    ReachableShuts(s, n, limit);
    if s.halt.Running? {
      HaltSteps(s);
    } else if s.mutex.Held? {
      var c := s.mutex.owner;
      assert Local(s, c) && Delivered(s, c);
      HolderResumes(s, c);
      OneSteps(s, c);
    } else if exists c :: 0 <= c < |s.cpus| && !s.cpus[c].pc.Done? && !s.cpus[c].pc.WaitOthers? {
      var c :| 0 <= c < |s.cpus| && !s.cpus[c].pc.Done? && !s.cpus[c].pc.WaitOthers?;
      assert Local(s, c) && Delivered(s, c);
      OneSteps(s, c);
    } else if exists c :: 0 <= c < |s.cpus| && s.cpus[c].pc.WaitOthers? {
      var c :| 0 <= c < |s.cpus| && s.cpus[c].pc.WaitOthers?;
      forall d | 0 <= d < |s.cpus| && d != c
        ensures s.cpus[d].pc.Done?
      {
        if s.cpus[d].pc.WaitOthers? {
          OneInHost(s, n, limit, c, d);
        }
      }
      ExitSteps(s, c);
    }
  }

  /** A run that has ended and in which nothing can go on is over: every loop has ended, with an end to
      report if the watchdog has not ended it. */
  lemma RunOver(s: State, n: nat, limit: nat)
    requires n > 0 && Reachable(s, n, limit) && s.Quit() && !CanStep(s)
    ensures (s.end.Some? || s.Killed()) && Over(s)
  {
    hide Step, CanStep, Reachable;
    NoDeadlock(s, n, limit);
    EndKnown(s, n, limit);
  }

  lemma HolderResumes(s: State, c: nat)
    requires c < |s.cpus| && Local(s, c) && s.mutex.Held? && s.mutex.owner == c
    ensures s.cpus[c].pc.Resuming?
  {
  }

  lemma HaltSteps(s: State)
    requires Inv(s) && s.halt.Running?
    ensures CanStep(s)
  {
    var c := s.halt.owner;
    if c < |s.cpus| {
      assert Local(s, c);
      assert Step(s, c, Next).Some?;
    } else {
      assert s.watch.Halts? && WatchStep(s).Some?;
    }
  }

  lemma ExitSteps(s: State, c: nat)
    requires c < |s.cpus| && s.cpus[c].pc.WaitOthers? && OthersDone(s, c)
    ensures CanStep(s)
  {
    assert Step(s, c, Next).Some?;
  }
}
