/** The vCPUs of one machine as a step system: park, wake, the Host's lock, and the end of a run
    (vmm/smp.go, vmm/vmm.go, and the cancel of hv/kvm_linux.go).

    A step is what one vCPU's thread does between two points at which another's can be seen: one
    critical section of smp's mutex, one channel operation, one atomic, one system call.  `resume`
    holds the mutex over a loop, so it is a step for each vCPU that it looks at.
 */
module Smp {
  import opened Wrappers

  /** How a run ended. */
  datatype End = Exited(code: int) | Failed

  /** What a guest asks of the monitor, by the kind of its answer; a call that is unknown, or whose
      memory is not the guest's, faults. */
  datatype Call =
    | Self
    | Wake(target: int)
    | Start(target: int)
    | Park(ns: int)
    | Store
    | Faults
    | Host
    | Exit(code: int)

  /** What a vCPU does when it has been counted in again: the guest, or the end of its loop. */
  datatype After = Resumed | Finish(e: End)

  /** Why a vCPU halts the machine: for the exit it answers, or for its own loop's end. */
  datatype HaltFor = ForExit(code: int) | ForEnd

  /** Where a vCPU's thread is. */
  datatype Pc =
    | AwaitStart                        // an AP, in its select
    | Enter                             // about to make KVM_RUN
    | InGuest                           // in KVM_RUN
    | Interrupted                       // KVM_RUN was interrupted: the cancel flag to be taken
    | Clearing                          // the flag taken: immediate_exit to be cleared
    | Canceled                          // VCPURun returned ExitReasonCanceled
    | Dispatch(call: Call)              // an exit, decoded
    | WakingAll(at: nat)                // wakeParked's loop
    | StartCount(target: nat)           // CPUStart: to count the target in
    | StartSend(target: nat)            // CPUStart: to send it its start
    | ParkBegin(deadline: Option<nat>)  // parkFor: to count itself out
    | ParkCheck(deadline: Option<nat>, limit: Option<nat>)
    | ParkWait(deadline: Option<nat>, limit: Option<nat>, limited: bool)
    | ParkWoke(deadline: Option<nat>, limit: Option<nat>, limited: bool, woken: bool)
    | ParkLate(deadline: Option<nat>, limit: Option<nat>)
    | Resume(after: After)              // resume: to take the mutex
    | Resuming(after: After)            // resume's loop, the mutex held
    | LockHost(call: Call)              // to count itself out, for a Host call
    | WantHost(call: Call)              // in lockHost's select
    | InHost(call: Call)
    | LeaveHost(after: After)           // unlockHost
    | WantHalt(why: HaltFor)            // halt: to enter its Once
    | Halting(why: HaltFor)             // halt's loop
    | WaitOthers(code: int)             // stopOthers: the other loops' ends
    | EndedStopped                      // the loop returned errStopped
    | Ended(e: End)                     // the loop returned an end
    | Done                              // loopDone is closed

  datatype ParkState = NotParked | ParkedLimited | ParkedUntilWoken

  datatype Cpu = Cpu(
    pc: Pc,
    park: ParkState,
    token: bool,            // the parker's wake
    started: bool,          // CPUStart has named it
    starter: Option<nat>,   // the vCPU whose CPUStart did
    granted: bool,          // it has been counted in: from the start, or by its CPUStart
    startMsg: bool,         // its start, sent and not yet received
    cancel: bool,           // VCPUsExit's flag
    immediateExit: bool)    // kvm_run's

  datatype Mutex = Free | Held(owner: nat, at: nat)

  /** halt's Once: how much of its loop is done, four steps for each vCPU, by a vCPU or by the watchdog,
      whose number is one past the last's. */
  datatype HaltState = NotStarted | Running(owner: nat, at: nat) | Finished

  /** Where the watchdog is: it ends a guest that makes no call, by a halt of its own. */
  datatype Watch = Watching | Killing | Halts | Returned

  datatype State = State(
    cpus: seq<Cpu>,
    running: int,
    limit: nat,
    mutex: Mutex,
    host: Option<nat>,
    halt: HaltState,
    watch: Watch,
    end: Option<End>,
    now: nat)
  {
    /** The channel quit is closed. */
    predicate Quit() {
      !halt.NotStarted?
    }

    /** The watchdog has ended the guest. */
    predicate Killed() {
      !watch.Watching?
    }

    predicate Many() {
      |cpus| > 1
    }
  }

  /** A choice that the vCPU's thread does not make: what the guest does, which way a select goes,
      whether a wait is ended by its token or by its time, whether an operation fails. */
  datatype Choice = Next | Other | Fails | Calls(call: Call)

  datatype Event = Tick(ns: nat) | Run(c: nat, choice: Choice) | Watchdog

  // ----- building steps

  function Put(s: State, c: nat, x: Cpu): State
    requires c < |s.cpus|
  {
    s.(cpus := s.cpus[c := x])
  }

  function Goto(s: State, c: nat, pc: Pc): State
    requires c < |s.cpus|
  {
    Put(s, c, s.cpus[c].(pc := pc))
  }

  function WakeUp(s: State, t: nat): State
    requires t < |s.cpus|
  {
    Put(s, t, s.cpus[t].(token := true))
  }

  function Proceed(after: After): Pc {
    match after
    case Resumed => Enter
    case Finish(e) => Ended(e)
  }

  function Sooner(x: Option<nat>, y: Option<nat>): Option<nat> {
    if x.None? then y else if y.None? then x else if x.value < y.value then x else y
  }

  /** The time at which a wait ends by itself: the guest's deadline, and the limit while it applies. */
  function Until(deadline: Option<nat>, limit: Option<nat>, limited: bool): Option<nat> {
    if limited then Sooner(limit, deadline) else deadline
  }

  predicate Passed(now: nat, t: Option<nat>) {
    t.Some? && now >= t.value
  }

  /** No step adds or removes a vCPU, or changes the limit. */
  predicate Same(s: State, s': State) {
    |s'.cpus| == |s.cpus| && s'.limit == s.limit
  }

  /** What another vCPU's step leaves alone: where this one is, its flags, and a wake it has been given. */
  predicate Left(x: Cpu, y: Cpu) {
    y.pc == x.pc && (x.token ==> y.token) && y.cancel == x.cancel && y.immediateExit == x.immediateExit
  }

  /** With an exit's code in hand, the other loops waited for. */
  predicate PastOthers(pc: Pc) {
    || ((pc.LeaveHost? || pc.Resume? || pc.Resuming?) && pc.after.Finish? && pc.after.e.Exited?)
    || (pc.Ended? && pc.e.Exited?)
  }

  /** A vCPU's own step takes a wake, the cancel flag and immediate_exit only where each is acted on. */
  predicate Takes(x: Cpu, y: Cpu) {
    && (x.token ==> y.token || y.pc.ParkWoke?)
    && (x.cancel ==> y.cancel || y.pc.Clearing?)
    && (x.immediateExit ==> y.immediateExit || y.pc.Canceled?)
    && (y.pc.InGuest? ==> x.pc.InGuest? || !x.immediateExit)
    && (y.pc.ParkWoke? ==> x.pc.ParkWait?)
    && (PastOthers(y.pc) ==> PastOthers(x.pc) || x.pc.InHost? || x.pc.WaitOthers?)
  }

  predicate HaltsAtEnd(pc: Pc) {
    (pc.WantHalt? || pc.Halting?) && pc.why.ForEnd?
  }

  ghost predicate Moves(s: State, c: nat, s': State)
    requires c < |s.cpus|
  {
    && Same(s, s') && s'.now == s.now
    && Takes(s.cpus[c], s'.cpus[c])
    && (s'.halt == s.halt || (s.halt.NotStarted? && s'.halt == Running(c, 0) && s.cpus[c].pc.WantHalt?))
    && s'.watch == s.watch && (s'.end == s.end || (s.end.None? && s.cpus[c].pc.Ended? && s'.end == Some(s.cpus[c].pc.e)))
    && (HaltsAtEnd(s'.cpus[c].pc) ==> s'.end.Some? || HaltsAtEnd(s.cpus[c].pc))
    && forall d :: 0 <= d < |s.cpus| && d != c ==> Left(s.cpus[d], s'.cpus[d])
  }

  // ----- the steps

  /** ap's select. */
  function AwaitStep(s: State, c: nat, choice: Choice): (r: Option<State>)
    requires c < |s.cpus|
    ensures r.Some? ==> Moves(s, c, r.value)
  {
    var x := s.cpus[c];
    match choice
    case Next => if x.startMsg then Some(Put(s, c, x.(startMsg := false, pc := Enter))) else None
    case Fails => if x.startMsg then Some(Put(s, c, x.(startMsg := false, pc := Ended(Failed)))) else None
    case Other => if s.Quit() then Some(Goto(s, c, EndedStopped)) else None
    case Calls(_) => None
  }

  /** KVM_RUN's entry: immediate_exit ends it before the guest runs. */
  function EnterStep(s: State, c: nat, choice: Choice): (r: Option<State>)
    requires c < |s.cpus|
    ensures r.Some? ==> Moves(s, c, r.value)
  {
    match choice
    case Next => Some(Goto(s, c, if s.cpus[c].immediateExit then Interrupted else InGuest))
    case Fails => Some(Goto(s, c, Ended(Failed)))
    case _ => None
  }

  /** The guest runs until it calls, or a signal nobody asked for, or an exit the monitor cannot answer. */
  function GuestStep(s: State, c: nat, choice: Choice): (r: Option<State>)
    requires c < |s.cpus|
    ensures r.Some? ==> Moves(s, c, r.value)
  {
    match choice
    case Calls(call) => Some(Goto(s, c, Dispatch(call)))
    case Other => Some(Goto(s, c, Interrupted))
    case Fails => Some(Goto(s, c, Ended(Failed)))
    case Next => None
  }

  /** VCPURun's loop, after EINTR. */
  function InterruptedStep(s: State, c: nat): (r: State)
    requires c < |s.cpus|
    ensures Moves(s, c, r)
  {
    var x := s.cpus[c];
    if x.cancel then Put(s, c, x.(cancel := false, pc := Clearing)) else Goto(s, c, Enter)
  }

  function ClearingStep(s: State, c: nat): (r: State)
    requires c < |s.cpus|
    ensures Moves(s, c, r)
  {
    Put(s, c, s.cpus[c].(immediateExit := false, pc := Canceled))
  }

  function CanceledStep(s: State, c: nat): (r: State)
    requires c < |s.cpus|
    ensures Moves(s, c, r)
  {
    Goto(s, c, if s.Killed() then Ended(Failed) else if s.Quit() then EndedStopped else Enter)
  }

  /** CPUWake: of all the others, of none, or of one. */
  function WakeStep(s: State, c: nat, a: int): (r: State)
    requires c < |s.cpus|
    ensures Moves(s, c, r)
  {
    if a == -1 then Goto(s, c, WakingAll(0))
    else if a < 0 || a >= |s.cpus| then Goto(s, c, Enter)
    else WakeUp(Goto(s, c, Enter), a)
  }

  /** CPUStart, to its swap. */
  function StartStep(s: State, c: nat, a: int): (r: State)
    requires c < |s.cpus|
    ensures Moves(s, c, r)
  {
    if a < 1 || a >= |s.cpus| || s.cpus[a].started then Goto(s, c, Enter)
    else
      var s' := Goto(s, c, StartCount(a));
      Put(s', a, s'.cpus[a].(started := true, starter := Some(c)))
  }

  /** call and smpCall, to the first thing another vCPU can see. */
  function DispatchStep(s: State, c: nat, call: Call): (r: State)
    requires c < |s.cpus|
    ensures Moves(s, c, r)
  {
    match call
    case Self => Goto(s, c, Enter)
    case Store => Goto(s, c, Enter)
    case Faults => Goto(s, c, Ended(Failed))
    case Wake(a) => WakeStep(s, c, a)
    case Start(a) => StartStep(s, c, a)
    case Park(ns) => Goto(s, c, ParkBegin(if ns >= 0 then Some(s.now + ns) else None))
    case Host => Goto(s, c, LockHost(call))
    case Exit(_) => Goto(s, c, LockHost(call))
  }

  function WakingAllStep(s: State, c: nat, at: nat): (r: State)
    requires c < |s.cpus|
    ensures Moves(s, c, r)
  {
    if at >= |s.cpus| then Goto(s, c, Enter)
    else if at == c then Goto(s, c, WakingAll(at + 1))
    else WakeUp(Goto(s, c, WakingAll(at + 1)), at)
  }

  function StartCountStep(s: State, c: nat, t: nat): (r: Option<State>)
    requires c < |s.cpus|
    ensures r.Some? ==> Moves(s, c, r.value)
  {
    if !s.mutex.Free? || t >= |s.cpus| then None
    else
      var s' := Goto(s, c, StartSend(t));
      Some(Put(s', t, s'.cpus[t].(granted := true)).(running := s.running + 1))
  }

  function StartSendStep(s: State, c: nat, t: nat): (r: Option<State>)
    requires c < |s.cpus|
    ensures r.Some? ==> Moves(s, c, r.value)
  {
    if t >= |s.cpus| then None
    else
      var s' := Goto(s, c, Enter);
      Some(Put(s', t, s'.cpus[t].(startMsg := true)))
  }

  /** parkFor's first critical section. */
  function ParkBeginStep(s: State, c: nat, deadline: Option<nat>): (r: Option<State>)
    requires c < |s.cpus|
    ensures r.Some? ==> Moves(s, c, r.value)
  {
    if !s.mutex.Free? then None
    else
      var running := s.running - 1;
      var park := if running > 0 then ParkedLimited else ParkedUntilWoken;
      Some(Put(s, c, s.cpus[c].(park := park, pc := ParkCheck(deadline, None))).(running := running))
  }

  /** The loop's critical section: whether this wait is limited is decided here, and used after. */
  function ParkCheckStep(s: State, c: nat, deadline: Option<nat>, limit: Option<nat>): (r: Option<State>)
    requires c < |s.cpus|
    ensures r.Some? ==> Moves(s, c, r.value)
  {
    if !s.mutex.Free? then None
    else
      var limited := s.cpus[c].park == ParkedLimited;
      var limit' := if limited && limit.None? then Some(s.now + s.limit) else limit;
      Some(Goto(s, c, ParkWait(deadline, limit', limited)))
  }

  /** The parker's wait: ended by the token, or by its time. */
  function ParkWaitStep(s: State, c: nat, deadline: Option<nat>, limit: Option<nat>, limited: bool, choice: Choice): (r: Option<State>)
    requires c < |s.cpus| && s.cpus[c].pc == ParkWait(deadline, limit, limited)
    ensures r.Some? ==> Moves(s, c, r.value)
  {
    var x := s.cpus[c];
    match choice
    case Next =>
      if x.token then Some(Put(s, c, x.(token := false, pc := ParkWoke(deadline, limit, limited, true)))) else None
    case Other =>
      if Passed(s.now, Until(deadline, limit, limited))
      then Some(Goto(s, c, ParkWoke(deadline, limit, limited, false)))
      else None
    case _ => None
  }

  /** Where a wait's end leads: the run's end, the guest, or another wait. */
  function ParkWokeTo(s: State, deadline: Option<nat>, limit: Option<nat>, limited: bool, woken: bool): Pc {
    if s.Quit() then EndedStopped
    else if woken || Passed(s.now, deadline) then Resume(Resumed)
    else if limited && Passed(s.now, limit) then ParkLate(deadline, limit)
    else ParkCheck(deadline, limit)
  }

  function ParkWokeStep(s: State, c: nat, deadline: Option<nat>, limit: Option<nat>, limited: bool, woken: bool): (r: State)
    requires c < |s.cpus|
    ensures Moves(s, c, r)
  {
    Goto(s, c, ParkWokeTo(s, deadline, limit, limited, woken))
  }

  function ParkLateStep(s: State, c: nat, deadline: Option<nat>, limit: Option<nat>): (r: Option<State>)
    requires c < |s.cpus|
    ensures r.Some? ==> Moves(s, c, r.value)
  {
    if !s.mutex.Free? then None
    else if s.running == 0 then
      Some(Put(s, c, s.cpus[c].(park := ParkedUntilWoken, pc := ParkCheck(deadline, limit))))
    else Some(Goto(s, c, Resume(Resumed)))
  }

  function ResumeStep(s: State, c: nat, after: After): (r: Option<State>)
    requires c < |s.cpus| && s.cpus[c].pc == Resume(after)
    ensures r.Some? ==> Moves(s, c, r.value)
  {
    if !s.mutex.Free? then None
    else
      var running := s.running + 1;
      if running == 1 then
        Some(Put(s, c, s.cpus[c].(park := NotParked, pc := Resuming(after))).(running := running, mutex := Held(c, 0)))
      else
        Some(Put(s, c, s.cpus[c].(park := NotParked, pc := Proceed(after))).(running := running))
  }

  function ResumingStep(s: State, c: nat, after: After): (r: Option<State>)
    requires c < |s.cpus| && s.cpus[c].pc == Resuming(after)
    ensures r.Some? ==> Moves(s, c, r.value)
  {
    if !s.mutex.Held? then None
    else if s.mutex.at >= |s.cpus| then Some(Goto(s, c, Proceed(after)).(mutex := Free))
    else
      var o := s.mutex.at;
      var s' := s.(mutex := Held(c, o + 1));
      if o != c && s.cpus[o].park == ParkedUntilWoken then
        Some(Put(s', o, s.cpus[o].(park := ParkedLimited, token := true)))
      else Some(s')
  }

  /** lockHost: with one vCPU it is not counted out. */
  function LockHostStep(s: State, c: nat, call: Call): (r: Option<State>)
    requires c < |s.cpus|
    ensures r.Some? ==> Moves(s, c, r.value)
  {
    if !s.Many() then Some(Goto(s, c, WantHost(call)))
    else if !s.mutex.Free? then None
    else Some(Goto(s, c, WantHost(call)).(running := s.running - 1))
  }

  function WantHostStep(s: State, c: nat, call: Call, choice: Choice): (r: Option<State>)
    requires c < |s.cpus|
    ensures r.Some? ==> Moves(s, c, r.value)
  {
    match choice
    case Next => if s.host.None? then Some(Goto(s, c, InHost(call)).(host := Some(c))) else None
    case Other => if s.Quit() then Some(Goto(s, c, EndedStopped)) else None
    case _ => None
  }

  /** int32(code). */
  function Int32(code: int): int {
    var m := code % 0x1_0000_0000;
    if m < 0x8000_0000 then m else m - 0x1_0000_0000
  }

  /** The Host's call returns, or fails; an exit's first stops the other vCPUs. */
  function InHostStep(s: State, c: nat, call: Call, choice: Choice): (r: Option<State>)
    requires c < |s.cpus| && s.cpus[c].pc == InHost(call)
    ensures r.Some? ==> Moves(s, c, r.value)
  {
    match choice
    case Next =>
      (match call
       case Exit(code) =>
         Some(Goto(s, c, if s.Many() then WantHalt(ForExit(code)) else LeaveHost(Finish(Exited(Int32(code))))))
       case _ => Some(Goto(s, c, LeaveHost(Resumed))))
    case Fails => Some(Goto(s, c, LeaveHost(Finish(Failed))))
    case _ => None
  }

  function LeaveHostStep(s: State, c: nat, after: After): (r: State)
    requires c < |s.cpus| && s.cpus[c].pc == LeaveHost(after)
    ensures Moves(s, c, r)
  {
    Goto(s, c, if s.Many() then Resume(after) else Proceed(after)).(host := None)
  }

  function HaltNext(why: HaltFor): Pc {
    match why
    case ForExit(code) => WaitOthers(code)
    case ForEnd => Done
  }

  /** Once.Do: the first enters, a later one waits for it. */
  function WantHaltStep(s: State, c: nat, why: HaltFor): (r: Option<State>)
    requires c < |s.cpus| && s.cpus[c].pc == WantHalt(why)
    ensures r.Some? ==> Moves(s, c, r.value)
  {
    match s.halt
    case NotStarted => Some(Goto(s, c, Halting(why)).(halt := Running(c, 0)))
    case Running(_, _) => None
    case Finished => Some(Goto(s, c, HaltNext(why)))
  }

  /** What halt does to vCPU x at its step sub: the wake, the cancel flag, immediate_exit, the signal. */
  function HaltEffect(x: Cpu, sub: nat): Cpu {
    match sub
    case 0 => x.(token := true)
    case 1 => x.(cancel := true)
    case 2 => x.(immediateExit := true)
    case _ => if x.pc.InGuest? then x.(pc := Interrupted) else x
  }

  /** The next step of halt's loop. */
  function HaltOne(s: State): (r: State)
    requires s.halt.Running? && s.halt.at / 4 < |s.cpus|
    ensures Same(s, r)
  {
    var j := s.halt.at / 4;
    Put(s, j, HaltEffect(s.cpus[j], s.halt.at % 4)).(halt := Running(s.halt.owner, s.halt.at + 1))
  }

  function HaltingStep(s: State, c: nat, why: HaltFor): (r: Option<State>)
    requires c < |s.cpus|
    ensures r.Some? ==> Same(s, r.value)
  {
    if !s.halt.Running? then None
    else if s.halt.at / 4 >= |s.cpus| then Some(Goto(s, c, HaltNext(why)).(halt := Finished))
    else Some(HaltOne(s))
  }

  /** The watchdog: the flag, then halt. */
  function WatchStep(s: State): (r: Option<State>)
    ensures r.Some? ==> Same(s, r.value)
  {
    match s.watch
    case Watching => Some(s.(watch := Killing))
    case Killing =>
      (match s.halt
       case NotStarted => Some(s.(halt := Running(|s.cpus|, 0), watch := Halts))
       case Running(_, _) => None
       case Finished => Some(s.(watch := Returned)))
    case Halts =>
      if !s.halt.Running? then None
      else if s.halt.at / 4 >= |s.cpus| then Some(s.(halt := Finished, watch := Returned))
      else Some(HaltOne(s))
    case Returned => None
  }

  predicate OthersDone(s: State, c: nat) {
    forall o :: 0 <= o < |s.cpus| && o != c ==> s.cpus[o].pc.Done?
  }

  /** The others' loops have ended: the exit, or a failure of the Host's. */
  function WaitOthersStep(s: State, c: nat, code: int, choice: Choice): (r: Option<State>)
    requires c < |s.cpus| && s.cpus[c].pc == WaitOthers(code)
    ensures r.Some? ==> Moves(s, c, r.value)
  {
    if !OthersDone(s, c) then None
    else
      match choice
      case Next => Some(Goto(s, c, LeaveHost(Finish(Exited(Int32(code))))))
      case Fails => Some(Goto(s, c, LeaveHost(Finish(Failed))))
      case _ => None
  }

  /** finish: the first end is the run's. */
  function EndedStep(s: State, c: nat, e: End): (r: State)
    requires c < |s.cpus| && s.cpus[c].pc == Ended(e)
    ensures Moves(s, c, r)
  {
    Goto(s, c, WantHalt(ForEnd)).(end := if s.end.None? then Some(e) else s.end)
  }

  function Only(choice: Choice, s: State): Option<State> {
    if choice == Next then Some(s) else None
  }

  function OnlyOpt(choice: Choice, s: Option<State>): Option<State> {
    if choice == Next then s else None
  }

  /** One step of vCPU c's thread, if it can take one. */
  function Step(s: State, c: nat, choice: Choice): Option<State>
    requires c < |s.cpus|
  {
    match s.cpus[c].pc
    case AwaitStart => AwaitStep(s, c, choice)
    case Enter => EnterStep(s, c, choice)
    case InGuest => GuestStep(s, c, choice)
    case Interrupted => Only(choice, InterruptedStep(s, c))
    case Clearing => Only(choice, ClearingStep(s, c))
    case Canceled => Only(choice, CanceledStep(s, c))
    case Dispatch(call) => Only(choice, DispatchStep(s, c, call))
    case WakingAll(at) => Only(choice, WakingAllStep(s, c, at))
    case StartCount(t) => OnlyOpt(choice, StartCountStep(s, c, t))
    case StartSend(t) => OnlyOpt(choice, StartSendStep(s, c, t))
    case ParkBegin(deadline) => OnlyOpt(choice, ParkBeginStep(s, c, deadline))
    case ParkCheck(deadline, limit) => OnlyOpt(choice, ParkCheckStep(s, c, deadline, limit))
    case ParkWait(deadline, limit, limited) => ParkWaitStep(s, c, deadline, limit, limited, choice)
    case ParkWoke(deadline, limit, limited, woken) => Only(choice, ParkWokeStep(s, c, deadline, limit, limited, woken))
    case ParkLate(deadline, limit) => OnlyOpt(choice, ParkLateStep(s, c, deadline, limit))
    case Resume(after) => OnlyOpt(choice, ResumeStep(s, c, after))
    case Resuming(after) => OnlyOpt(choice, ResumingStep(s, c, after))
    case LockHost(call) => OnlyOpt(choice, LockHostStep(s, c, call))
    case WantHost(call) => WantHostStep(s, c, call, choice)
    case InHost(call) => InHostStep(s, c, call, choice)
    case LeaveHost(after) => Only(choice, LeaveHostStep(s, c, after))
    case WantHalt(why) => OnlyOpt(choice, WantHaltStep(s, c, why))
    case Halting(why) => OnlyOpt(choice, HaltingStep(s, c, why))
    case WaitOthers(code) => WaitOthersStep(s, c, code, choice)
    case EndedStopped => Only(choice, Goto(s, c, Done))
    case Ended(e) => Only(choice, EndedStep(s, c, e))
    case Done => None
  }

  function Apply(s: State, e: Event): Option<State> {
    match e
    case Tick(ns) => Some(s.(now := s.now + ns))
    case Run(c, choice) => if c < |s.cpus| then Step(s, c, choice) else None
    case Watchdog => WatchStep(s)
  }

  // ----- runs

  /** A machine of n vCPUs, the boot vCPU about to run the image and the others waiting. */
  function Init(n: nat, limit: nat): State
    requires n > 0
  {
    var boot := Cpu(Enter, NotParked, false, false, None, true, false, false, false);
    var ap := Cpu(AwaitStart, NotParked, false, false, None, false, false, false, false);
    State(seq(n, i => if i == 0 then boot else ap), 1, limit, Free, None, NotStarted, Watching, None, 0)
  }

  /** The state after a run of events, if each can happen. */
  function Exec(s: State, events: seq<Event>): Option<State> {
    if events == [] then Some(s)
    else
      match Exec(s, events[..|events| - 1])
      case None => None
      case Some(s') => Apply(s', events[|events| - 1])
  }

  ghost predicate Reachable(s: State, n: nat, limit: nat)
    requires n > 0
  {
    exists events :: Exec(Init(n, limit), events) == Some(s)
  }
}
