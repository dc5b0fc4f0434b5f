/** What a vCPU's calls come to: a wake given and kept, a park that lasts, a start, the Host's answer, an exit's
    code.  Each is said of the events of a run.
 */
module SmpCalls {
  import opened Wrappers
  import opened Smp
  import opened SmpSafety
  import opened SmpShutdown

  // ----- wakes

  /** A wake of a vCPU gives it the token and no other, one of none gives nothing, and one of all goes on to its loop. */
  lemma WakeGives(s: State, c: nat, a: int, choice: Choice, s': State)
    requires c < |s.cpus| && s.cpus[c].pc == Dispatch(Wake(a)) && Step(s, c, choice) == Some(s')
    ensures |s'.cpus| == |s.cpus| && s'.cpus[c].pc == if a == -1 then WakingAll(0) else Enter
    ensures forall d :: 0 <= d < |s.cpus| ==> s'.cpus[d].token == (s.cpus[d].token || d == a)
    ensures forall d :: 0 <= d < |s.cpus| && d != c ==> s'.cpus[d].pc == s.cpus[d].pc
  {
    hide Moves, Takes, WakeStep;
    assert s' == WakeStep(s, c, a);
    WakeStepGives(s, c, a);
  }

  lemma WakeStepGives(s: State, c: nat, a: int)
    requires c < |s.cpus|
    ensures var r := WakeStep(s, c, a);
            && |r.cpus| == |s.cpus| && r.cpus[c].pc == (if a == -1 then WakingAll(0) else Enter)
            && (forall d :: 0 <= d < |s.cpus| ==> r.cpus[d].token == (s.cpus[d].token || d == a))
            && (forall d :: 0 <= d < |s.cpus| && d != c ==> r.cpus[d].pc == s.cpus[d].pc)
  {
    hide Moves, Takes;
  }

  /** Each turn of the loop gives one more vCPU the token, but not the caller. */
  lemma WakeTurn(s: State, c: nat, choice: Choice, s': State)
    requires c < |s.cpus| && s.cpus[c].pc.WakingAll? && Step(s, c, choice) == Some(s')
    ensures |s'.cpus| == |s.cpus|
    ensures var at := s.cpus[c].pc.at;
            && s'.cpus[c].pc == (if at < |s.cpus| then WakingAll(at + 1) else Enter)
            && (forall d :: 0 <= d < |s.cpus| ==> s'.cpus[d].token == (s.cpus[d].token || (d == at && d != c)))
  {
  }

  /** An event leaves the vCPUs as many as they are, and another's program counter where it is, but for a signal. */
  lemma Elsewhere(s: State, e: Event, s': State, c: nat)
    requires c < |s.cpus| && Apply(s, e) == Some(s')
    ensures |s'.cpus| == |s.cpus| && s'.limit == s.limit && s.now <= s'.now
    ensures !(e.Run? && e.c == c) && !s.cpus[c].pc.InGuest? ==> s'.cpus[c].pc == s.cpus[c].pc
  {
    hide Step;
    match e
    case Tick(_) =>
    case Run(d, choice) =>
      if s.cpus[d].pc.Halting? {
        HaltingLeaves(s, d, choice, s', c);
      } else {
        StepMoves(s, d, choice, s');
      }
    case Watchdog =>
  }

  lemma HaltingLeaves(s: State, d: nat, choice: Choice, s': State, c: nat)
    requires c < |s.cpus| && d < |s.cpus| && s.cpus[d].pc.Halting? && Step(s, d, choice) == Some(s')
    ensures |s'.cpus| == |s.cpus| && s'.limit == s.limit && s'.now == s.now
    ensures c != d && !s.cpus[c].pc.InGuest? ==> s'.cpus[c].pc == s.cpus[c].pc
    ensures s.cpus[c].token ==> s'.cpus[c].token
    ensures s'.cpus[c].startMsg == s.cpus[c].startMsg
  {
    hide Step, Moves;
    HaltingIs(s, d, choice, s');
    if s.halt.at / 4 < |s.cpus| {
      EffectLeaves(s.cpus[s.halt.at / 4], s.halt.at % 4);
      hide HaltEffect;
    }
  }

  lemma HaltingIs(s: State, d: nat, choice: Choice, s': State)
    requires d < |s.cpus| && s.cpus[d].pc.Halting? && Step(s, d, choice) == Some(s')
    ensures s.halt.Running?
    ensures s' == if s.halt.at / 4 >= |s.cpus| then Goto(s, d, HaltNext(s.cpus[d].pc.why)).(halt := Finished) else HaltOne(s)
  {
    hide Moves, HaltEffect, HaltNext;
    assert Some(s') == HaltingStep(s, d, s.cpus[d].pc.why);
  }

  lemma EffectLeaves(x: Cpu, sub: nat)
    ensures var y := HaltEffect(x, sub);
            && (x.token ==> y.token) && y.startMsg == x.startMsg && (!x.pc.InGuest? ==> y.pc == x.pc)
  {
  }

  /** After k of a run's events vCPU d has the token. */
  ghost predicate HadToken(s: State, events: seq<Event>, k: nat, d: nat) {
    k <= |events| && Exec(s, events[..k]).Some? && d < |Exec(s, events[..k]).value.cpus|
    && Exec(s, events[..k]).value.cpus[d].token
  }

  /** After k of them vCPU c is in its loop. */
  ghost predicate LoopsAt(s: State, events: seq<Event>, k: nat, c: nat) {
    k <= |events| && Exec(s, events[..k]).Some? && c < |Exec(s, events[..k]).value.cpus|
    && Exec(s, events[..k]).value.cpus[c].pc.WakingAll?
  }

  /** The caller is in its loop before each of a run's events. */
  ghost predicate Looping(s: State, events: seq<Event>, c: nat) {
    forall k :: 0 <= k < |events| ==> LoopsAt(s, events, k, c)
  }

  lemma Shorter(s: State, events: seq<Event>, last: nat, k: nat, c: nat)
    requires k <= last <= |events|
    ensures events[..last][..k] == events[..k]
    ensures LoopsAt(s, events, k, c) == LoopsAt(s, events[..last], k, c)
    ensures HadToken(s, events, k, c) == HadToken(s, events[..last], k, c)
  {
    assert events[..last][..k] == events[..k];
  }

  /** How far the loop of a wake of all has come: every vCPU before, but the caller, has had the token since. */
  lemma {:induction false} WakesTo(s: State, events: seq<Event>, s': State, c: nat, d: nat)
    requires c < |s.cpus| && s.cpus[c].pc == WakingAll(0) && Exec(s, events) == Some(s') && Looping(s, events, c)
    requires d < |s.cpus| && d != c
    ensures |s'.cpus| == |s.cpus|
    ensures s'.cpus[c].pc.WakingAll? || s'.cpus[c].pc.Enter?
    ensures s'.cpus[c].pc.Enter? || d < s'.cpus[c].pc.at ==> exists k :: HadToken(s, events, k, d)
  {
    if events != [] {
      hide Apply, HadToken, LoopsAt;
      var last := |events| - 1;
      var before := Exec(s, events[..last]).value;
      LoopsLast(s, events, before, c);
      forall k | 0 <= k < last
        ensures LoopsAt(s, events[..last], k, c)
      {
        Shorter(s, events, last, k, c);
      }
      WakesTo(s, events[..last], before, c, d);
      Elsewhere(before, events[last], s', c);
      if k: nat :| HadToken(s, events[..last], k, d) && k <= last {
        Shorter(s, events, last, k, d);
      }
      TurnHad(s, events, before, s', c, d);
      hide Exec, Looping;
    }
  }

  lemma LoopsLast(s: State, events: seq<Event>, before: State, c: nat)
    requires events != [] && Exec(s, events[..|events| - 1]) == Some(before) && LoopsAt(s, events, |events| - 1, c)
    ensures c < |before.cpus| && before.cpus[c].pc.WakingAll?
  {
  }

  lemma TurnHad(s: State, events: seq<Event>, before: State, s': State, c: nat, d: nat)
    requires events != [] && Exec(s, events) == Some(s') && Apply(before, events[|events| - 1]) == Some(s')
    requires c < |before.cpus| && before.cpus[c].pc.WakingAll? && d < |before.cpus| && d != c
    ensures events[|events| - 1].Run? && events[|events| - 1].c == c ==>
              var at := before.cpus[c].pc.at;
              && |s'.cpus| == |before.cpus| && s'.cpus[c].pc == (if at < |s'.cpus| then WakingAll(at + 1) else Enter)
              && (d == at ==> HadToken(s, events, |events|, d))
  {
    hide Step, Exec;
    var e := events[|events| - 1];
    assert events[..|events|] == events;
    if e.Run? && e.c == c {
      WakeTurn(before, c, e.choice, s');
    }
  }

  /** A wake of all: when its loop is over every vCPU but the caller has had the token. */
  lemma WakesAll(s: State, events: seq<Event>, s': State, c: nat, d: nat)
    requires c < |s.cpus| && s.cpus[c].pc == WakingAll(0) && Exec(s, events) == Some(s') && Looping(s, events, c)
    requires c < |s'.cpus| && s'.cpus[c].pc.Enter? && d < |s.cpus| && d != c
    ensures exists k :: HadToken(s, events, k, d)
  {
    WakesTo(s, events, s', c, d);
  }

  // ----- a wake is kept

  /** A wait of vCPU a is ended with its token, which it takes. */
  ghost predicate TokenEnds(s: State, s': State, a: nat) {
    && a < |s.cpus| == |s'.cpus| && s.cpus[a].pc.ParkWait? && s.cpus[a].token && !s'.cpus[a].token
    && s'.cpus[a].pc.ParkWoke? && s'.cpus[a].pc.woken
  }

  /** Event k of a run does so. */
  ghost predicate Took(s: State, events: seq<Event>, k: nat, a: nat) {
    && k < |events| && events[k] == Run(a, Next)
    && Exec(s, events[..k]).Some? && Exec(s, events[..k + 1]).Some?
    && TokenEnds(Exec(s, events[..k]).value, Exec(s, events[..k + 1]).value, a)
  }

  lemma OnlyWaits(s: State, c: nat, choice: Choice, s': State)
    requires c < |s.cpus| && !s.cpus[c].pc.Halting? && !s.cpus[c].pc.ParkWait? && Step(s, c, choice) == Some(s')
    ensures |s'.cpus| == |s.cpus| && !s'.cpus[c].pc.ParkWoke?
  {
    hide Step;
    StepMoves(s, c, choice, s');
  }

  /** A wait's end: by its token or by its time, its park's deadline and limit the same. */
  lemma WaitTakes(s: State, c: nat, choice: Choice, s': State)
    requires c < |s.cpus| && s.cpus[c].pc.ParkWait? && Step(s, c, choice) == Some(s')
    ensures var x, y := s.cpus[c].pc, s'.cpus[c].pc;
            && |s'.cpus| == |s.cpus| && y.ParkWoke?
            && y.deadline == x.deadline && y.limit == x.limit && y.limited == x.limited && (y.woken <==> choice.Next?)
            && (choice.Next? ==> TokenEnds(s, s', c))
            && (!choice.Next? ==> s'.cpus[c].token == s.cpus[c].token)
            && (!choice.Next? ==> Passed(s.now, x.deadline) || (x.limited && Passed(s.now, x.limit)))
  {
    hide Moves, Takes;
  }

  /** A token is kept by every event, but one that ends a wait with it. */
  lemma TokenStep(s: State, e: Event, s': State, a: nat)
    requires a < |s.cpus| && s.cpus[a].token && Apply(s, e) == Some(s')
    ensures |s'.cpus| == |s.cpus| && (s'.cpus[a].token || (e == Run(a, Next) && TokenEnds(s, s', a)))
  {
    hide Step, TokenEnds;
    match e
    case Tick(_) =>
    case Run(c, choice) =>
      if s.cpus[c].pc.Halting? {
        HaltingLeaves(s, c, choice, s', a);
      } else {
        StepMoves(s, c, choice, s');
        if c == a && s.cpus[c].pc.ParkWait? {
          WaitTakes(s, c, choice, s');
        } else if c == a {
          OnlyWaits(s, c, choice, s');
        }
      }
    case Watchdog =>
  }

  /** A wake given before a park or in it is kept, in every continuation, until a wait is ended with it. */
  lemma {:induction false} WakeKept(s: State, events: seq<Event>, s': State, a: nat)
    requires a < |s.cpus| && s.cpus[a].token && Exec(s, events) == Some(s')
    ensures |s'.cpus| == |s.cpus| && (s'.cpus[a].token || exists k :: Took(s, events, k, a))
  {
    if events != [] {
      hide Apply, TokenEnds, Took;
      var last := |events| - 1;
      var before := Exec(s, events[..last]).value;
      WakeKept(s, events[..last], before, a);
      Elsewhere(before, events[last], s', a);
      if before.cpus[a].token {
        TokenStep(before, events[last], s', a);
        if !s'.cpus[a].token {
          TookLast(s, events, before, s', a);
        }
      } else {
        var k :| Took(s, events[..last], k, a);
        TookLater(s, events, last, k, a);
      }
    }
  }

  lemma TookLast(s: State, events: seq<Event>, before: State, s': State, a: nat)
    requires events != [] && events[|events| - 1] == Run(a, Next) && TokenEnds(before, s', a)
    requires Exec(s, events[..|events| - 1]) == Some(before) && Exec(s, events) == Some(s')
    ensures Took(s, events, |events| - 1, a)
  {
    hide TokenEnds;
    assert events[..|events| - 1 + 1] == events;
  }

  lemma TookLater(s: State, events: seq<Event>, last: nat, k: nat, a: nat)
    requires last <= |events| && Took(s, events[..last], k, a)
    ensures Took(s, events, k, a)
  {
    hide TokenEnds;
    assert events[..last][..k] == events[..k] && events[..last][..k + 1] == events[..k + 1];
  }

  /** A wait that is ended with the token leaves the park: for the guest, or the loop's end when the run has ended. */
  lemma WokenLeaves(s: State, c: nat, choice: Choice, s': State)
    requires c < |s.cpus| && s.cpus[c].pc.ParkWoke? && s.cpus[c].pc.woken && Step(s, c, choice) == Some(s')
    ensures |s'.cpus| == |s.cpus| && s'.cpus[c].pc == if s.Quit() then EndedStopped else Resume(Resumed)
  {
  }

  /** When a wait can end: by its token, by its deadline, or by the limit while it is limited. */
  lemma WaitEnds(s: State, c: nat)
    requires c < |s.cpus| && s.cpus[c].pc.ParkWait?
    ensures Step(s, c, Next).Some? <==> s.cpus[c].token
    ensures var pc := s.cpus[c].pc;
            Step(s, c, Other).Some? <==>
            || (pc.deadline.Some? && pc.deadline.value <= s.now)
            || (pc.limited && pc.limit.Some? && pc.limit.value <= s.now)
  {
  }

  /** The event gives vCPU d the token: a wake of it, of all the vCPUs but the waker, of those parked until woken
      when the first is counted in, or of halt's. */
  predicate GivesToken(s: State, e: Event, d: nat)
    requires d < |s.cpus|
  {
    match e
    case Tick(_) => false
    case Watchdog => s.watch.Halts? && s.halt.Running? && s.halt.at == 4 * d
    case Run(c, choice) =>
      c < |s.cpus| && choice == Next
      && match s.cpus[c].pc
         case Dispatch(call) => call.Wake? && call.target == d
         case WakingAll(at) => at == d && d != c
         case Resuming(_) => s.mutex.Held? && s.mutex.at == d && d != c && s.cpus[d].park == ParkedUntilWoken
         case Halting(_) => s.halt.Running? && s.halt.at == 4 * d
         case _ => false
  }

  /** Every token is as it was. */
  ghost predicate SameTokens(s: State, s': State) {
    |s'.cpus| == |s.cpus| && forall d :: 0 <= d < |s.cpus| ==> s'.cpus[d].token == s.cpus[d].token
  }

  lemma RunTokens(s: State, c: nat, choice: Choice, s': State)
    requires c < |s.cpus| && Step(s, c, choice) == Some(s')
    requires var pc := s.cpus[c].pc;
             pc.AwaitStart? || pc.Enter? || pc.InGuest? || pc.Interrupted? || pc.Clearing? || pc.Canceled? || pc.StartCount? || pc.StartSend?
    ensures SameTokens(s, s')
  {
    hide Moves, Takes, Same;
  }

  lemma ParkTokens(s: State, c: nat, choice: Choice, s': State)
    requires c < |s.cpus| && Step(s, c, choice) == Some(s')
    requires var pc := s.cpus[c].pc; pc.ParkBegin? || pc.ParkCheck? || pc.ParkWoke? || pc.ParkLate? || pc.Resume?
    ensures SameTokens(s, s')
  {
    hide Moves, Takes, Same, Passed;
  }

  lemma HostTokens(s: State, c: nat, choice: Choice, s': State)
    requires c < |s.cpus| && Step(s, c, choice) == Some(s')
    requires var pc := s.cpus[c].pc; pc.LockHost? || pc.WantHost? || pc.InHost? || pc.LeaveHost?
    ensures SameTokens(s, s')
  {
    hide Moves, Takes, Same;
  }

  lemma EndTokens(s: State, c: nat, choice: Choice, s': State)
    requires c < |s.cpus| && Step(s, c, choice) == Some(s')
    requires var pc := s.cpus[c].pc; pc.WantHalt? || pc.WaitOthers? || pc.EndedStopped? || pc.Ended?
    ensures SameTokens(s, s')
  {
    hide Moves, Takes, Same, OthersDone;
  }

  lemma DispatchTokens(s: State, c: nat, call: Call, d: nat)
    requires c < |s.cpus| && d < |s.cpus|
    ensures var s' := DispatchStep(s, c, call);
            |s'.cpus| == |s.cpus| && (s'.cpus[d].token <==> s.cpus[d].token || (call.Wake? && call.target == d))
  {
    hide Moves, Takes, Same, WakeStep;
    if call.Wake? {
      WakeStepGives(s, c, call.target);
    }
  }

  lemma ResumingTokens(s: State, c: nat, after: After, d: nat)
    requires c < |s.cpus| && d < |s.cpus| && s.cpus[c].pc == Resuming(after) && ResumingStep(s, c, after).Some?
    ensures var s' := ResumingStep(s, c, after).value;
            && |s'.cpus| == |s.cpus| && s.mutex.Held?
            && (s'.cpus[d].token <==> s.cpus[d].token || (s.mutex.at == d && d != c && s.cpus[d].park == ParkedUntilWoken))
  {
    hide Moves, Takes, Same;
  }

  lemma HaltTokens(s: State, d: nat)
    requires d < |s.cpus| && s.halt.Running? && s.halt.at / 4 < |s.cpus|
    ensures var s' := HaltOne(s); |s'.cpus| == |s.cpus| && (s'.cpus[d].token <==> s.cpus[d].token || s.halt.at == 4 * d)
  {
    assert s.halt.at == 4 * d <==> s.halt.at / 4 == d && s.halt.at % 4 == 0;
  }

  lemma WaitTokens(s: State, c: nat, choice: Choice, s': State, d: nat)
    requires c < |s.cpus| && d < |s.cpus| && s.cpus[c].pc.ParkWait? && Step(s, c, choice) == Some(s')
    ensures |s'.cpus| == |s.cpus| && (s'.cpus[d].token <==> s.cpus[d].token && !(d == c && choice == Next))
  {
    hide Moves, Takes, Same, Passed;
  }

  /** A token is there after an event exactly when the event gave it, or it was there and no wait was ended with it. */
  lemma TokenGiven(s: State, e: Event, s': State, d: nat)
    requires d < |s.cpus| && Apply(s, e) == Some(s')
    ensures |s'.cpus| == |s.cpus|
    ensures s'.cpus[d].token <==> GivesToken(s, e, d) || (s.cpus[d].token && !(e == Run(d, Next) && s.cpus[d].pc.ParkWait?))
  {
    hide Moves, Takes, Same, HaltOne, Step;
    match e
    case Tick(_) =>
    case Watchdog =>
      if s.watch.Halts? && s.halt.Running? && s.halt.at / 4 < |s.cpus| {
        HaltTokens(s, d);
      }
    case Run(c, choice) => StepTokens(s, c, choice, s', d);
  }

  lemma StepTokens(s: State, c: nat, choice: Choice, s': State, d: nat)
    requires c < |s.cpus| && d < |s.cpus| && Step(s, c, choice) == Some(s')
    ensures |s'.cpus| == |s.cpus|
    ensures var e := Run(c, choice);
            s'.cpus[d].token <==> GivesToken(s, e, d) || (s.cpus[d].token && !(e == Run(d, Next) && s.cpus[d].pc.ParkWait?))
  {
    hide DispatchStep, ResumingStep, HaltOne, WakingAllStep;
    hide AwaitStep, EnterStep, GuestStep, InterruptedStep, ClearingStep, CanceledStep, StartCountStep, StartSendStep;
    hide ParkBeginStep, ParkCheckStep, ParkWaitStep, ParkWokeStep, ParkLateStep, ResumeStep;
    hide LockHostStep, WantHostStep, InHostStep, LeaveHostStep, WantHaltStep, WaitOthersStep, EndedStep;
    hide Moves, Takes, Same;
    match s.cpus[c].pc
    case Dispatch(call) => DispatchTokens(s, c, call, d);
    case WakingAll(at) => WakeTurn(s, c, choice, s');
    case Resuming(after) => ResumingTokens(s, c, after, d);
    case Halting(_) =>
      if s.halt.at / 4 < |s.cpus| {
        HaltTokens(s, d);
      }
    case ParkWait(_, _, _) => WaitTokens(s, c, choice, s', d);
    case _ =>
      hide Step;
      OtherTokens(s, c, choice, s');
  }

  lemma OtherTokens(s: State, c: nat, choice: Choice, s': State)
    requires c < |s.cpus| && Step(s, c, choice) == Some(s')
    requires var pc := s.cpus[c].pc; !pc.Dispatch? && !pc.WakingAll? && !pc.Resuming? && !pc.Halting? && !pc.ParkWait?
    ensures SameTokens(s, s')
  {
    hide Step, SameTokens;
    var pc := s.cpus[c].pc;
    if pc.ParkBegin? || pc.ParkCheck? || pc.ParkWoke? || pc.ParkLate? || pc.Resume? {
      ParkTokens(s, c, choice, s');
    } else if pc.LockHost? || pc.WantHost? || pc.InHost? || pc.LeaveHost? {
      HostTokens(s, c, choice, s');
    } else if pc.WantHalt? || pc.WaitOthers? || pc.EndedStopped? || pc.Ended? {
      EndTokens(s, c, choice, s');
    } else if pc.Done? {
      DoneStays(s, c, choice);
    } else {
      RunTokens(s, c, choice, s');
    }
  }

  lemma DoneStays(s: State, c: nat, choice: Choice)
    requires c < |s.cpus| && s.cpus[c].pc.Done?
    ensures Step(s, c, choice).None?
  {
  }

  /** A cancel that finds a vCPU in a run that has not ended costs it one exit: it is in the guest again with
      neither of its flags. */
  lemma CancelOnce(s: State, c: nat) returns (s': State)
    requires c < |s.cpus| && s.cpus[c].pc.Interrupted? && s.cpus[c].cancel && !s.Quit() && !s.Killed()
    ensures Exec(s, [Run(c, Next), Run(c, Next), Run(c, Next), Run(c, Next)]) == Some(s')
    ensures |s'.cpus| == |s.cpus| && s'.cpus[c].pc.InGuest? && !s'.cpus[c].cancel && !s'.cpus[c].immediateExit
  {
    hide Moves, Takes, Exec;
    var s1 := InterruptedStep(s, c);
    var s2 := ClearingStep(s1, c);
    var s3 := CanceledStep(s2, c);
    s' := EnterStep(s3, c, Next).value;
    FourSteps(s, [Run(c, Next), Run(c, Next), Run(c, Next), Run(c, Next)], s1, s2, s3, s');
  }

  /** No vCPU has one at first. */
  lemma NoTokens(n: nat, limit: nat, d: nat)
    requires d < n
    ensures |Init(n, limit).cpus| == n && !Init(n, limit).cpus[d].token
  {
  }

  // ----- a park lasts

  /** In parkFor. */
  predicate Parking(pc: Pc) {
    pc.ParkBegin? || Parked(pc)
  }

  /** A park of so many of the guest's nanoseconds is until then; of a negative number, it has no time of its own. */
  lemma ParkAsks(s: State, c: nat, ns: int, choice: Choice, s': State)
    requires c < |s.cpus| && s.cpus[c].pc == Dispatch(Park(ns)) && Step(s, c, choice) == Some(s')
    ensures |s'.cpus| == |s.cpus| && s'.now == s.now
    ensures s'.cpus[c].pc == ParkBegin(if ns < 0 then None else Some(s.now + ns))
  {
  }

  /** Why a park may end: its vCPU was woken, its deadline or the machine's limit has passed. */
  predicate Over(start: State, deadline: Option<nat>, now: nat, woken: bool) {
    woken || Passed(now, deadline) || now >= start.now + start.limit
  }

  /** How a park since a state is. */
  predicate Lasts(start: State, c: nat, deadline: Option<nat>, s: State, woken: bool) {
    && c < |s.cpus| && s.limit == start.limit && start.now <= s.now
    && match s.cpus[c].pc
       case ParkBegin(d) => d == deadline
       case ParkCheck(d, l) => d == deadline && Late(start, l)
       case ParkWait(d, l, _) => d == deadline && Late(start, l)
       case ParkWoke(d, l, limited, w) =>
         && d == deadline && Late(start, l) && (w ==> woken)
         && (!w ==> Passed(s.now, d) || (limited && Passed(s.now, l)))
       case ParkLate(d, l) => d == deadline && Late(start, l) && Passed(s.now, l)
       case Resume(after) => after == Resumed && Over(start, deadline, s.now, woken)
       case EndedStopped => s.Quit()
       case _ => false
  }

  /** The limit is counted from when the park began, or later. */
  predicate Late(start: State, limit: Option<nat>) {
    limit.Some? ==> limit.value >= start.now + start.limit
  }

  lemma OwnLasts(start: State, c: nat, deadline: Option<nat>, s: State, choice: Choice, s': State, woken: bool)
    requires Lasts(start, c, deadline, s, woken) && Parking(s.cpus[c].pc) && Step(s, c, choice) == Some(s')
    ensures Lasts(start, c, deadline, s', woken || TokenEnds(s, s', c))
  {
    hide Moves, Takes;
    match s.cpus[c].pc
    case ParkBegin(_) => BeginLasts(start, c, deadline, s, choice, s', woken);
    case ParkCheck(_, _) => CheckLasts(start, c, deadline, s, choice, s', woken);
    case ParkWait(_, _, _) =>
      StepMoves(s, c, choice, s');
      WaitTakes(s, c, choice, s');
      hide Step;
      SameTime(s, c, choice, s');
    case ParkWoke(_, _, _, _) => WokeLasts(start, c, deadline, s, choice, s', woken);
    case ParkLate(_, _) => LateLasts(start, c, deadline, s, woken);
  }

  lemma SameTime(s: State, c: nat, choice: Choice, s': State)
    requires c < |s.cpus| && !s.cpus[c].pc.Halting? && Step(s, c, choice) == Some(s')
    ensures s'.now == s.now && s'.limit == s.limit
  {
    hide Step;
    StepMoves(s, c, choice, s');
  }

  lemma BeginLasts(start: State, c: nat, deadline: Option<nat>, s: State, choice: Choice, s': State, woken: bool)
    requires Lasts(start, c, deadline, s, woken) && s.cpus[c].pc.ParkBegin? && Step(s, c, choice) == Some(s')
    ensures Lasts(start, c, deadline, s', woken)
  {
    hide Moves, Takes;
  }

  lemma CheckLasts(start: State, c: nat, deadline: Option<nat>, s: State, choice: Choice, s': State, woken: bool)
    requires Lasts(start, c, deadline, s, woken) && s.cpus[c].pc.ParkCheck? && Step(s, c, choice) == Some(s')
    ensures Lasts(start, c, deadline, s', woken)
  {
    hide Moves, Takes;
  }

  lemma WokeLasts(start: State, c: nat, deadline: Option<nat>, s: State, choice: Choice, s': State, woken: bool)
    requires Lasts(start, c, deadline, s, woken) && s.cpus[c].pc.ParkWoke? && Step(s, c, choice) == Some(s')
    ensures Lasts(start, c, deadline, s', woken)
  {
    hide Moves, Takes;
  }

  lemma LateLasts(start: State, c: nat, deadline: Option<nat>, s: State, woken: bool)
    requires Lasts(start, c, deadline, s, woken) && s.cpus[c].pc.ParkLate?
    ensures var r := ParkLateStep(s, c, s.cpus[c].pc.deadline, s.cpus[c].pc.limit);
            r.Some? ==> Lasts(start, c, deadline, r.value, woken)
  {
    hide Moves, Takes, ParkLateStep;
    LateGoes(s, c, s.cpus[c].pc.deadline, s.cpus[c].pc.limit);
  }

  lemma LateGoes(s: State, c: nat, deadline: Option<nat>, limit: Option<nat>)
    requires c < |s.cpus|
    ensures var r := ParkLateStep(s, c, deadline, limit);
            r.Some? ==>
              && |r.value.cpus| == |s.cpus| && r.value.now == s.now && r.value.limit == s.limit
              && r.value.cpus[c].pc == if s.running == 0 then ParkCheck(deadline, limit) else Resume(Resumed)
  {
    hide Moves, Takes;
  }

  lemma EventLasts(start: State, c: nat, deadline: Option<nat>, s: State, e: Event, s': State, woken: bool)
    requires Lasts(start, c, deadline, s, woken) && Parking(s.cpus[c].pc) && Apply(s, e) == Some(s')
    ensures Lasts(start, c, deadline, s', woken || (e == Run(c, Next) && TokenEnds(s, s', c)))
  {
    hide Step;
    if e.Run? && e.c == c {
      OwnLasts(start, c, deadline, s, e.choice, s', woken);
      if s.cpus[c].pc.ParkWait? {
        WaitTakes(s, c, e.choice, s');
      }
    } else {
      Elsewhere(s, e, s', c);
    }
  }

  /** The vCPU is in its park before each of a run's events. */
  ghost predicate ParkedAt(s: State, events: seq<Event>, k: nat, c: nat) {
    k <= |events| && Exec(s, events[..k]).Some? && c < |Exec(s, events[..k]).value.cpus|
    && Parking(Exec(s, events[..k]).value.cpus[c].pc)
  }

  /** A park goes on until its vCPU is woken, its deadline passes or the machine's limit does, or the run ends. */
  lemma {:induction false} ParkLasts(s: State, events: seq<Event>, s': State, c: nat, deadline: Option<nat>)
    requires c < |s.cpus| && s.cpus[c].pc == ParkBegin(deadline) && Exec(s, events) == Some(s')
    requires forall k :: 0 <= k < |events| ==> ParkedAt(s, events, k, c)
    ensures Lasts(s, c, deadline, s', exists k :: Took(s, events, k, c))
  {
    hide Apply, Lasts, Took, TokenEnds;
    if events == [] {
      LastsFirst(s, c, deadline, exists k :: Took(s, events, k, c));
    } else {
      var last := |events| - 1;
      var before := Exec(s, events[..last]).value;
      assert ParkedAt(s, events, last, c);
      forall k | 0 <= k < last
        ensures ParkedAt(s, events[..last], k, c)
      {
        assert ParkedAt(s, events, k, c);
        assert events[..last][..k] == events[..k];
      }
      ParkLasts(s, events[..last], before, c, deadline);
      var woken := exists k :: Took(s, events[..last], k, c);
      EventLasts(s, c, deadline, before, events[last], s', woken);
      if woken {
        var k :| Took(s, events[..last], k, c);
        TookLater(s, events, last, k, c);
      }
      if events[last] == Run(c, Next) && TokenEnds(before, s', c) {
        TookLast(s, events, before, s', c);
      }
      MoreWoken(s, c, deadline, s', woken || (events[last] == Run(c, Next) && TokenEnds(before, s', c)),
                exists k :: Took(s, events, k, c));
    }
  }

  lemma LastsFirst(s: State, c: nat, deadline: Option<nat>, woken: bool)
    requires c < |s.cpus| && s.cpus[c].pc == ParkBegin(deadline)
    ensures Lasts(s, c, deadline, s, woken)
  {
  }

  lemma MoreWoken(start: State, c: nat, deadline: Option<nat>, s: State, woken: bool, more: bool)
    requires Lasts(start, c, deadline, s, woken) && (woken ==> more)
    ensures Lasts(start, c, deadline, s, more)
  {
  }

  function LimitOf(pc: Pc): Option<nat> {
    match pc
    case ParkCheck(_, limit) => limit
    case ParkWait(_, limit, _) => limit
    case ParkWoke(_, limit, _, _) => limit
    case ParkLate(_, limit) => limit
    case _ => None
  }

  /** A park's limit is set once, when the park is first found to be limited, and is the machine's from then. */
  lemma LimitOnce(s: State, e: Event, s': State, c: nat)
    requires c < |s.cpus| && Parked(s.cpus[c].pc) && Apply(s, e) == Some(s')
    ensures |s'.cpus| == |s.cpus|
    ensures Parked(s'.cpus[c].pc) ==>
              LimitOf(s'.cpus[c].pc) ==
              if e == Run(c, Next) && s.cpus[c].pc.ParkCheck? && s.cpus[c].park == ParkedLimited && LimitOf(s.cpus[c].pc).None?
              then Some(s.now + s.limit)
              else LimitOf(s.cpus[c].pc)
  {
    hide Step;
    Elsewhere(s, e, s', c);
    if e.Run? && e.c == c {
      if s.cpus[c].pc.ParkCheck? {
        CheckLimits(s, c, e.choice, s');
      } else {
        OwnLimit(s, c, e.choice, s');
      }
    }
  }

  lemma CheckLimits(s: State, c: nat, choice: Choice, s': State)
    requires c < |s.cpus| && s.cpus[c].pc.ParkCheck? && Step(s, c, choice) == Some(s')
    ensures choice == Next && |s'.cpus| == |s.cpus| && s'.cpus[c].pc.ParkWait?
    ensures var limit := s.cpus[c].pc.limit;
            s'.cpus[c].pc.limit == if s.cpus[c].park == ParkedLimited && limit.None? then Some(s.now + s.limit) else limit
    ensures s'.cpus[c].pc.limited <==> s.cpus[c].park == ParkedLimited
  {
    hide Moves, Takes;
  }

  lemma OwnLimit(s: State, c: nat, choice: Choice, s': State)
    requires c < |s.cpus| && Step(s, c, choice) == Some(s')
    requires s.cpus[c].pc.ParkWait? || s.cpus[c].pc.ParkWoke? || s.cpus[c].pc.ParkLate?
    ensures |s'.cpus| == |s.cpus| && (Parked(s'.cpus[c].pc) ==> LimitOf(s'.cpus[c].pc) == LimitOf(s.cpus[c].pc))
  {
    hide Moves, Takes, Passed, ParkLateStep, ParkWaitStep, ParkWokeTo;
    match s.cpus[c].pc
    case ParkWait(_, _, _) => WaitTakes(s, c, choice, s');
    case ParkWoke(deadline, limit, limited, woken) =>
      assert s'.cpus[c].pc == ParkWokeTo(s, deadline, limit, limited, woken);
      WokeLimit(s, deadline, limit, limited, woken);
    case ParkLate(deadline, limit) => LateGoes(s, c, deadline, limit);
  }

  lemma WokeLimit(s: State, deadline: Option<nat>, limit: Option<nat>, limited: bool, woken: bool)
    ensures var pc := ParkWokeTo(s, deadline, limit, limited, woken); Parked(pc) ==> LimitOf(pc) == limit
  {
    hide Passed;
  }

  /** A park is one until woken exactly when no other vCPU is counted in as it begins; else it is limited. */
  lemma ParkKind(s: State, n: nat, limit: nat, c: nat, s': State)
    requires n > 1 && Reachable(s, n, limit) && !s.Quit()
    requires c < |s.cpus| && s.cpus[c].pc.ParkBegin? && Step(s, c, Next) == Some(s')
    ensures |s'.cpus| == |s.cpus|
    ensures s'.cpus[c].park == if exists d :: 0 <= d < |s.cpus| && d != c && Counted(s.cpus[d]) then ParkedLimited else ParkedUntilWoken
  {
    ReachableKeeps(s, n, limit);
    assert Local(s, c);
    hide Inv, Local, Reachable;
    BeginKind(s, c, s');
    assert Counted(s.cpus[c]);
    RunningCounts(s, n, limit);
    var rest := s.cpus[c := s.cpus[c].(granted := false)];
    CountPut(s.cpus, c, s.cpus[c].(granted := false));
    CountSome(rest);
    forall d | 0 <= d < |s.cpus|
      ensures Counted(rest[d]) <==> d != c && Counted(s.cpus[d])
    {
    }
  }

  lemma BeginKind(s: State, c: nat, s': State)
    requires c < |s.cpus| && s.cpus[c].pc.ParkBegin? && Step(s, c, Next) == Some(s')
    ensures |s'.cpus| == |s.cpus| && s'.cpus[c].park == if s.running > 1 then ParkedLimited else ParkedUntilWoken
  {
    hide Moves, Takes;
  }

  lemma {:induction false} CountSome(cpus: seq<Cpu>)
    ensures Count(cpus) > 0 <==> exists d :: 0 <= d < |cpus| && Counted(cpus[d])
  {
    if cpus != [] {
      var most := cpus[..|cpus| - 1];
      CountSome(most);
      forall d | 0 <= d < |most|
        ensures most[d] == cpus[d]
      {
      }
      if d :| 0 <= d < |cpus| && Counted(cpus[d]) {
        CountOne(cpus, d);
      }
    }
  }

  // ----- a start

  /** A vCPU that has not been started is: three steps of the caller, and it enters the guest with its own. */
  lemma Starts(s: State, c: nat, t: nat) returns (s': State)
    requires c < |s.cpus| && s.cpus[c].pc == Dispatch(Start(t)) && 1 <= t < |s.cpus| && t != c
    requires !s.cpus[t].started && s.cpus[t].pc.AwaitStart? && s.mutex.Free?
    ensures Exec(s, [Run(c, Next), Run(c, Next), Run(c, Next), Run(t, Next)]) == Some(s')
    ensures |s'.cpus| == |s.cpus| && s'.cpus[c].pc == Enter && s'.cpus[t].pc == Enter
    ensures s'.cpus[t].started && s'.cpus[t].granted && !s'.cpus[t].startMsg && s'.running == s.running + 1
  {
    hide Moves, Takes, Exec;
    var s1 := DispatchStep(s, c, Start(t));
    var s2 := StartCountStep(s1, c, t).value;
    var s3 := StartSendStep(s2, c, t).value;
    s' := AwaitStep(s3, t, Next).value;
    FourSteps(s, [Run(c, Next), Run(c, Next), Run(c, Next), Run(t, Next)], s1, s2, s3, s');
  }

  /** A start of none, of the boot vCPU or of one that has been started changes nothing. */
  lemma StartRefused(s: State, c: nat, t: int, choice: Choice, s': State)
    requires c < |s.cpus| && s.cpus[c].pc == Dispatch(Start(t)) && Step(s, c, choice) == Some(s')
    requires t < 1 || t >= |s.cpus| || s.cpus[t].started
    ensures s' == Goto(s, c, Enter)
  {
    hide Moves, Takes;
  }

  // ----- the Host

  /** The Host's call that returns gives the vCPU back to the guest, and the Host to the next. */
  lemma HostReturns(s: State, c: nat) returns (s': State)
    requires c < |s.cpus| && s.cpus[c].pc == WantHost(Host) && s.host.None? && s.Many() && s.mutex.Free? && s.running > 0
    ensures Exec(s, [Run(c, Next), Run(c, Next), Run(c, Next), Run(c, Next)]) == Some(s')
    ensures |s'.cpus| == |s.cpus| && s'.cpus[c].pc == Enter && s'.host.None? && s'.running == s.running + 1
  {
    hide Moves, Takes, Exec;
    var s1 := WantHostStep(s, c, Host, Next).value;
    var s2 := InHostStep(s1, c, Host, Next).value;
    TwoSteps(s, Run(c, Next), Run(c, Next), s1, s2);
    s' := HostLeaves(s2, c);
    ExecJoin(s, [Run(c, Next), Run(c, Next)], [Run(c, Next), Run(c, Next)], s2);
    assert [Run(c, Next), Run(c, Next)] + [Run(c, Next), Run(c, Next)]
           == [Run(c, Next), Run(c, Next), Run(c, Next), Run(c, Next)];
  }

  lemma HostLeaves(s: State, c: nat) returns (s': State)
    requires c < |s.cpus| && s.cpus[c].pc == LeaveHost(Resumed) && s.Many() && s.mutex.Free? && s.running > 0
    ensures Exec(s, [Run(c, Next), Run(c, Next)]) == Some(s')
    ensures |s'.cpus| == |s.cpus| && s'.cpus[c].pc == Enter && s'.host.None? && s'.running == s.running + 1
  {
    hide Moves, Takes, Exec;
    var s1 := LeaveHostStep(s, c, Resumed);
    s' := HostResumes(s1, c);
    TwoSteps(s, Run(c, Next), Run(c, Next), s1, s');
  }

  lemma HostResumes(s: State, c: nat) returns (s': State)
    requires c < |s.cpus| && s.cpus[c].pc == Resume(Resumed) && s.mutex.Free? && s.running > 0
    ensures Apply(s, Run(c, Next)) == Some(s')
    ensures |s'.cpus| == |s.cpus| && s'.cpus[c].pc == Enter && s'.host == s.host && s'.running == s.running + 1
  {
    hide Moves, Takes;
    s' := ResumeStep(s, c, Resumed).value;
  }

  // ----- an exit's code

  lemma Int32Exact(a: int)
    ensures -0x8000_0000 <= Int32(a) < 0x8000_0000 && (a - Int32(a)) % 0x1_0000_0000 == 0
  {
  }

  /** On the way from an exit's call to the run's end, with the code that is in 32 bits x. */
  predicate Carries(pc: Pc, x: int) {
    match pc
    case Dispatch(call) => call.Exit? && Int32(call.code) == x
    case LockHost(call) => call.Exit? && Int32(call.code) == x
    case WantHost(call) => call.Exit? && Int32(call.code) == x
    case InHost(call) => call.Exit? && Int32(call.code) == x
    case WantHalt(why) => why.ForExit? && Int32(why.code) == x
    case Halting(why) => why.ForExit? && Int32(why.code) == x
    case WaitOthers(code) => Int32(code) == x
    case LeaveHost(after) => after == Finish(Exited(x))
    case Resume(after) => after == Finish(Exited(x))
    case Resuming(after) => after == Finish(Exited(x))
    case Ended(e) => e == Exited(x)
    case _ => false
  }

  /** The guest's exit begins it. */
  lemma ExitBegins(s: State, c: nat, a: int, s': State)
    requires c < |s.cpus| && s.cpus[c].pc.InGuest? && Step(s, c, Calls(Exit(a))) == Some(s')
    ensures |s'.cpus| == |s.cpus| && Carries(s'.cpus[c].pc, Int32(a))
  {
    hide Moves, Takes, Int32;
  }

  /** Every step that goes on keeps the code, until it is recorded, if no other end has been. */
  lemma ExitCarried(s: State, c: nat, s': State, x: int)
    requires c < |s.cpus| && Carries(s.cpus[c].pc, x) && Step(s, c, Next) == Some(s')
    ensures |s'.cpus| == |s.cpus|
    ensures s.cpus[c].pc.Ended? ==> s'.end == if s.end.None? then Some(Exited(x)) else s.end
    ensures !s.cpus[c].pc.Ended? ==> Carries(s'.cpus[c].pc, x) && s'.end == s.end
  {
    hide Moves, Takes, Int32, Step;
    var pc := s.cpus[c].pc;
    if pc.Dispatch? || pc.LockHost? || pc.WantHost? || pc.InHost? {
      ExitAsks(s, c, s', x);
    } else if pc.WantHalt? || pc.Halting? || pc.WaitOthers? {
      ExitHalts(s, c, s', x);
    } else {
      ExitLeaves(s, c, s', x);
    }
  }

  lemma ExitAsks(s: State, c: nat, s': State, x: int)
    requires c < |s.cpus| && Carries(s.cpus[c].pc, x) && Step(s, c, Next) == Some(s')
    requires var pc := s.cpus[c].pc; pc.Dispatch? || pc.LockHost? || pc.WantHost? || pc.InHost?
    ensures |s'.cpus| == |s.cpus| && Carries(s'.cpus[c].pc, x) && s'.end == s.end
  {
    hide Moves, Takes, Int32;
    match s.cpus[c].pc
    case Dispatch(call) => assert s' == Goto(s, c, LockHost(call));
    case LockHost(call) => assert s' == Goto(s, c, WantHost(call)).(running := s'.running);
    case WantHost(call) => assert s' == Goto(s, c, InHost(call)).(host := Some(c));
    case InHost(call) => InHostCarries(s, c, call, x);
  }

  lemma InHostCarries(s: State, c: nat, call: Call, x: int)
    requires c < |s.cpus| && s.cpus[c].pc == InHost(call) && Carries(InHost(call), x)
    ensures var r := InHostStep(s, c, call, Next);
            r.Some? && |r.value.cpus| == |s.cpus| && Carries(r.value.cpus[c].pc, x) && r.value.end == s.end
  {
    hide Moves, Takes, Int32;
  }

  lemma ExitHalts(s: State, c: nat, s': State, x: int)
    requires c < |s.cpus| && Carries(s.cpus[c].pc, x) && Step(s, c, Next) == Some(s')
    requires var pc := s.cpus[c].pc; pc.WantHalt? || pc.Halting? || pc.WaitOthers?
    ensures |s'.cpus| == |s.cpus| && Carries(s'.cpus[c].pc, x) && s'.end == s.end
  {
    hide Moves, Takes, Int32, OthersDone;
    if s.cpus[c].pc.Halting? {
      hide Step;
      HaltingIs(s, c, Next, s');
      if s.halt.at / 4 < |s.cpus| {
        EffectLeaves(s.cpus[s.halt.at / 4], s.halt.at % 4);
        hide HaltEffect;
      }
    }
  }

  lemma ExitLeaves(s: State, c: nat, s': State, x: int)
    requires c < |s.cpus| && Carries(s.cpus[c].pc, x) && Step(s, c, Next) == Some(s')
    requires var pc := s.cpus[c].pc; pc.LeaveHost? || pc.Resume? || pc.Resuming? || pc.Ended?
    ensures |s'.cpus| == |s.cpus|
    ensures s.cpus[c].pc.Ended? ==> s'.end == if s.end.None? then Some(Exited(x)) else s.end
    ensures !s.cpus[c].pc.Ended? ==> Carries(s'.cpus[c].pc, x) && s'.end == s.end
  {
    hide Moves, Takes, Int32, ResumeStep, ResumingStep, LeaveHostStep, EndedStep;
    match s.cpus[c].pc
    case LeaveHost(after) => LeaveCarries(s, c, after, x);
    case Resume(after) => ResumeCarries(s, c, after, x);
    case Resuming(after) => ResumingCarries(s, c, after, x);
    case Ended(e) => EndedCarries(s, c, e);
  }

  lemma LeaveCarries(s: State, c: nat, after: After, x: int)
    requires c < |s.cpus| && s.cpus[c].pc == LeaveHost(after) && after == Finish(Exited(x))
    ensures var r := LeaveHostStep(s, c, after); |r.cpus| == |s.cpus| && Carries(r.cpus[c].pc, x) && r.end == s.end
  {
    hide Moves, Takes, Int32;
  }

  lemma ResumeCarries(s: State, c: nat, after: After, x: int)
    requires c < |s.cpus| && s.cpus[c].pc == Resume(after) && after == Finish(Exited(x))
    ensures var r := ResumeStep(s, c, after);
            r.Some? ==> |r.value.cpus| == |s.cpus| && Carries(r.value.cpus[c].pc, x) && r.value.end == s.end
  {
    hide Moves, Takes, Int32;
  }

  lemma ResumingCarries(s: State, c: nat, after: After, x: int)
    requires c < |s.cpus| && s.cpus[c].pc == Resuming(after) && after == Finish(Exited(x))
    ensures var r := ResumingStep(s, c, after);
            r.Some? ==> |r.value.cpus| == |s.cpus| && Carries(r.value.cpus[c].pc, x) && r.value.end == s.end
  {
    hide Moves, Takes, Int32;
  }

  lemma EndedCarries(s: State, c: nat, e: End)
    requires c < |s.cpus| && s.cpus[c].pc == Ended(e)
    ensures var r := EndedStep(s, c, e); |r.cpus| == |s.cpus| && r.end == if s.end.None? then Some(e) else s.end
  {
    hide Moves, Takes;
  }

  /** An exit of one of several vCPUs that is past the others has them all ended, and so has one on record. */
  ghost predicate ExitLast(s: State) {
    s.Many() ==>
      && (forall c :: 0 <= c < |s.cpus| && PastOthers(s.cpus[c].pc) ==> OthersDone(s, c))
      && (s.end.Some? && s.end.value.Exited? ==> exists c :: 0 <= c < |s.cpus| && OthersDone(s, c))
  }

  lemma PastFrom(s: State, d: nat, choice: Choice, s': State)
    requires d < |s.cpus| && !s.cpus[d].pc.Halting? && Step(s, d, choice) == Some(s')
    ensures |s'.cpus| == |s.cpus|
    ensures s.Many() && PastOthers(s'.cpus[d].pc) ==> PastOthers(s.cpus[d].pc) || (s.cpus[d].pc.WaitOthers? && OthersDone(s, d))
    ensures s'.end != s.end ==> s.cpus[d].pc.Ended? && s'.end == Some(s.cpus[d].pc.e)
  {
    StepMoves(s, d, choice, s');
    if s.cpus[d].pc.InHost? {
      hide Moves, Takes, InHostStep;
      InHostPast(s, d, s.cpus[d].pc.call, choice);
      assert InHostStep(s, d, s.cpus[d].pc.call, choice) == Some(s');
      hide Step;
    } else if s.cpus[d].pc.WaitOthers? {
      hide Moves, Takes, OthersDone;
      assert WaitOthersStep(s, d, s.cpus[d].pc.code, choice).Some?;
      hide Step;
    } else {
      hide Step;
    }
  }

  lemma InHostPast(s: State, d: nat, call: Call, choice: Choice)
    requires d < |s.cpus| && s.cpus[d].pc == InHost(call)
    ensures var r := InHostStep(s, d, call, choice);
            r.Some? ==> |r.value.cpus| == |s.cpus| && r.value.end == s.end && (s.Many() ==> !PastOthers(r.value.cpus[d].pc))
  {
    hide Moves, Takes, Int32;
  }

  lemma OwnLast(s: State, d: nat, choice: Choice, s': State)
    requires ExitLast(s) && s.Many() && d < |s.cpus| && !s.cpus[d].pc.Halting? && Step(s, d, choice) == Some(s')
    ensures ExitLast(s')
  {
    hide Step;
    StepMoves(s, d, choice, s');
    PastFrom(s, d, choice, s');
    NotDone(s, d, choice);
    forall c | 0 <= c < |s.cpus| && OthersDone(s, c)
      ensures c == d && OthersDone(s', d)
    {
    }
  }

  lemma NotDone(s: State, d: nat, choice: Choice)
    requires d < |s.cpus| && Step(s, d, choice).Some?
    ensures !s.cpus[d].pc.Done?
  {
  }

  lemma HaltLast(s: State, s': State)
    requires ExitLast(s) && |s'.cpus| == |s.cpus| && s'.end == s.end
    requires forall c :: 0 <= c < |s.cpus| ==> (s.cpus[c].pc.Done? ==> s'.cpus[c].pc.Done?)
    requires forall c :: 0 <= c < |s.cpus| ==> (PastOthers(s'.cpus[c].pc) ==> PastOthers(s.cpus[c].pc))
    ensures ExitLast(s')
  {
    hide PastOthers;
    forall c | 0 <= c < |s.cpus| && OthersDone(s, c)
      ensures OthersDone(s', c)
    {
    }
  }

  lemma HaltingLast(s: State, d: nat, choice: Choice, s': State)
    requires ExitLast(s) && d < |s.cpus| && s.cpus[d].pc.Halting? && Step(s, d, choice) == Some(s')
    ensures ExitLast(s')
  {
    hide Step, ExitLast;
    HaltingIs(s, d, choice, s');
    if s.halt.at / 4 < |s.cpus| {
      OneLast(s);
    } else {
      HaltLast(s, s');
    }
  }

  lemma OneLast(s: State)
    requires ExitLast(s) && s.halt.Running? && s.halt.at / 4 < |s.cpus|
    ensures ExitLast(HaltOne(s))
  {
    hide ExitLast;
    EffectLeaves(s.cpus[s.halt.at / 4], s.halt.at % 4);
    EffectPast(s.cpus[s.halt.at / 4], s.halt.at % 4);
    hide HaltEffect;
    HaltLast(s, HaltOne(s));
  }

  lemma EffectPast(x: Cpu, sub: nat)
    ensures PastOthers(HaltEffect(x, sub).pc) ==> PastOthers(x.pc)
    ensures x.pc.Done? ==> HaltEffect(x, sub).pc.Done?
  {
  }

  lemma EventLast(s: State, e: Event, s': State)
    requires ExitLast(s) && Apply(s, e) == Some(s')
    ensures ExitLast(s')
  {
    hide Step, ExitLast;
    match e
    case Tick(_) => HaltLast(s, s');
    case Run(d, choice) =>
      if s.cpus[d].pc.Halting? {
        HaltingLast(s, d, choice, s');
      } else if s.Many() {
        OwnLast(s, d, choice, s');
      } else {
        Elsewhere(s, e, s', d);
        Lone(s');
      }
    case Watchdog =>
      if s.watch.Halts? && s.halt.Running? && s.halt.at / 4 < |s.cpus| {
        OneLast(s);
      } else {
        HaltLast(s, s');
      }
  }

  lemma Lone(s: State)
    requires !s.Many()
    ensures ExitLast(s)
  {
  }

  lemma {:induction false} RunLast(s: State, events: seq<Event>, s': State)
    requires ExitLast(s) && Exec(s, events) == Some(s')
    ensures ExitLast(s')
  {
    hide Apply, ExitLast;
    if events != [] {
      var last := |events| - 1;
      RunLast(s, events[..last], Exec(s, events[..last]).value);
      EventLast(Exec(s, events[..last]).value, events[last], s');
    }
  }

  /** An exit's report counts every vCPU: in every reachable state of several vCPUs, one that is past waiting for
      the others, or an exit on record, has all loops but one ended. */
  lemma ExitCountsAll(s: State, n: nat, limit: nat)
    requires n > 0 && Reachable(s, n, limit)
    ensures ExitLast(s)
  {
    hide ExitLast;
    var events :| Exec(Init(n, limit), events) == Some(s);
    InitLast(n, limit);
    RunLast(Init(n, limit), events, s);
  }

  lemma InitLast(n: nat, limit: nat)
    requires n > 0
    ensures ExitLast(Init(n, limit))
  {
  }

  /** A vCPU that the watchdog has made exit ends the run with a fault, if it has no other end. */
  lemma KilledFails(s: State, c: nat) returns (s': State)
    requires c < |s.cpus| && s.cpus[c].pc.Canceled? && s.Killed()
    ensures Exec(s, [Run(c, Next), Run(c, Next)]) == Some(s')
    ensures s'.end == if s.end.None? then Some(Failed) else s.end
  {
    hide Moves, Takes, Exec;
    var s1 := CanceledStep(s, c);
    s' := EndedStep(s1, c, Failed);
    TwoSteps(s, Run(c, Next), Run(c, Next), s1, s');
  }

  // ----- one vCPU

  predicate CountedOut(pc: Pc) {
    pc.ParkCheck? || pc.ParkWait? || pc.ParkWoke? || pc.ParkLate? || pc.Resume?
  }

  predicate CountedAlone(s: State) {
    && |s.cpus| == 1
    && !s.cpus[0].pc.StartCount? && !s.cpus[0].pc.StartSend?
    && (!s.Quit() ==> !s.cpus[0].pc.EndedStopped? && !s.cpus[0].pc.Done? && s.running == if CountedOut(s.cpus[0].pc) then 0 else 1)
  }

  /** A machine of one vCPU counts it out for a park alone, and not for the Host. */
  lemma AloneCounts(s: State, limit: nat)
    requires Reachable(s, 1, limit) && !s.Quit()
    ensures |s.cpus| == 1 && s.running == if CountedOut(s.cpus[0].pc) then 0 else 1
  {
    var events :| Exec(Init(1, limit), events) == Some(s);
    AloneRun(Init(1, limit), events, s);
  }

  lemma {:induction false} AloneRun(s: State, events: seq<Event>, s': State)
    requires CountedAlone(s) && Exec(s, events) == Some(s')
    ensures CountedAlone(s')
  {
    hide CountedAlone, Apply;
    if events != [] {
      var last := |events| - 1;
      AloneRun(s, events[..last], Exec(s, events[..last]).value);
      AloneEvent(Exec(s, events[..last]).value, events[last], s');
    }
  }

  lemma AloneEvent(s: State, e: Event, s': State)
    requires CountedAlone(s) && Apply(s, e) == Some(s')
    ensures CountedAlone(s')
  {
    hide Step, Same;
    match e
    case Tick(_) =>
    case Watchdog =>
    case Run(c, choice) => AloneStep(s, choice);
  }

  lemma AloneStep(s: State, choice: Choice)
    requires CountedAlone(s) && Step(s, 0, choice).Some?
    ensures CountedAlone(Step(s, 0, choice).value)
  {
    var pc := s.cpus[0].pc;
    hide Step, CountedAlone;
    if pc.Dispatch? || pc.WakingAll? || pc.StartCount? || pc.StartSend? || pc.Done? {
      AloneDispatch(s, choice);
    } else if pc.ParkBegin? || pc.ParkCheck? || pc.ParkWait? {
      AlonePark(s, choice);
    } else if pc.ParkWoke? || pc.ParkLate? {
      AloneWoke(s, choice);
    } else if pc.Resume? || pc.Resuming? {
      AloneResume(s, choice);
    } else if pc.LockHost? || pc.WantHost? {
      AloneHost(s, choice);
    } else if pc.InHost? || pc.LeaveHost? {
      AloneInHost(s, choice);
    } else if pc.WantHalt? || pc.Halting? {
      AloneHalts(s, choice);
    } else if pc.WaitOthers? || pc.EndedStopped? || pc.Ended? {
      AloneEnd(s, choice);
    } else if pc.AwaitStart? || pc.Enter? || pc.InGuest? {
      AloneRuns(s, choice);
    } else {
      AloneCancels(s, choice);
    }
  }

  lemma AloneRuns(s: State, choice: Choice)
    requires CountedAlone(s) && Step(s, 0, choice).Some?
    requires var pc := s.cpus[0].pc; pc.AwaitStart? || pc.Enter? || pc.InGuest?
    ensures CountedAlone(Step(s, 0, choice).value)
  {
    hide Moves, Takes, Same;
  }

  lemma AloneCancels(s: State, choice: Choice)
    requires CountedAlone(s) && Step(s, 0, choice).Some?
    requires var pc := s.cpus[0].pc; pc.Interrupted? || pc.Clearing? || pc.Canceled?
    ensures CountedAlone(Step(s, 0, choice).value)
  {
    hide Moves, Takes, Same;
  }

  lemma AloneDispatch(s: State, choice: Choice)
    requires CountedAlone(s) && Step(s, 0, choice).Some?
    requires var pc := s.cpus[0].pc; pc.Dispatch? || pc.WakingAll? || pc.StartCount? || pc.StartSend? || pc.Done?
    ensures CountedAlone(Step(s, 0, choice).value)
  {
    hide Moves, Takes, Same, DispatchStep;
    if s.cpus[0].pc.Dispatch? {
      AloneCalls(s, s.cpus[0].pc.call);
    }
  }

  lemma AloneCalls(s: State, call: Call)
    requires CountedAlone(s) && s.cpus[0].pc == Dispatch(call)
    ensures CountedAlone(DispatchStep(s, 0, call))
  {
    hide Moves, Takes, Same;
  }

  lemma AlonePark(s: State, choice: Choice)
    requires CountedAlone(s) && Step(s, 0, choice).Some?
    requires var pc := s.cpus[0].pc; pc.ParkBegin? || pc.ParkCheck? || pc.ParkWait?
    ensures CountedAlone(Step(s, 0, choice).value)
  {
    hide Moves, Takes, Same, Passed;
  }

  lemma AloneWoke(s: State, choice: Choice)
    requires CountedAlone(s) && Step(s, 0, choice).Some? && (s.cpus[0].pc.ParkWoke? || s.cpus[0].pc.ParkLate?)
    ensures CountedAlone(Step(s, 0, choice).value)
  {
    hide Moves, Takes, Same, Passed;
  }

  lemma AloneResume(s: State, choice: Choice)
    requires CountedAlone(s) && Step(s, 0, choice).Some? && (s.cpus[0].pc.Resume? || s.cpus[0].pc.Resuming?)
    ensures CountedAlone(Step(s, 0, choice).value)
  {
    hide Moves, Takes, Same, ResumingStep;
    if s.cpus[0].pc.Resuming? {
      AloneResuming(s, s.cpus[0].pc.after);
    }
  }

  lemma AloneResuming(s: State, after: After)
    requires CountedAlone(s) && s.cpus[0].pc == Resuming(after) && ResumingStep(s, 0, after).Some?
    ensures CountedAlone(ResumingStep(s, 0, after).value)
  {
    hide Moves, Takes, Same;
  }

  lemma AloneHost(s: State, choice: Choice)
    requires CountedAlone(s) && Step(s, 0, choice).Some?
    requires var pc := s.cpus[0].pc; pc.LockHost? || pc.WantHost?
    ensures CountedAlone(Step(s, 0, choice).value)
  {
    hide Moves, Takes, Same;
  }

  lemma AloneInHost(s: State, choice: Choice)
    requires CountedAlone(s) && Step(s, 0, choice).Some?
    requires var pc := s.cpus[0].pc; pc.InHost? || pc.LeaveHost?
    ensures CountedAlone(Step(s, 0, choice).value)
  {
    hide Moves, Takes, Same;
  }

  lemma AloneHalts(s: State, choice: Choice)
    requires CountedAlone(s) && Step(s, 0, choice).Some? && (s.cpus[0].pc.WantHalt? || s.cpus[0].pc.Halting?)
    ensures CountedAlone(Step(s, 0, choice).value)
  {
    hide Moves, Takes, Same, HaltingStep;
    if s.cpus[0].pc.Halting? {
      AloneHalting(s, s.cpus[0].pc.why);
    }
  }

  lemma AloneHalting(s: State, why: HaltFor)
    requires CountedAlone(s) && s.cpus[0].pc == Halting(why) && HaltingStep(s, 0, why).Some?
    ensures CountedAlone(HaltingStep(s, 0, why).value)
  {
    hide Same, HaltEffect;
    if s.halt.at / 4 < 1 {
      HaltOnePc(s, 0);
    }
  }

  lemma AloneEnd(s: State, choice: Choice)
    requires CountedAlone(s) && Step(s, 0, choice).Some?
    requires var pc := s.cpus[0].pc; pc.WaitOthers? || pc.EndedStopped? || pc.Ended?
    ensures CountedAlone(Step(s, 0, choice).value)
  {
    hide Moves, Takes, Same, OthersDone;
  }
}
