/** The protocol of wait and wake in vmm/park_linux.go, and that it is what the vCPUs' model takes a park to be.

    There a park ends in one step, by its token or by its time.  Here a run interleaves the single swaps and
    futex calls of a waiter with those of any number of wakers: Refines maps each of them to such a step or to
    none, NoLostWake is what holds between them, and WakeEndsPark and ParkMoves are its progress.
 */
module Parker {
  import opened Wrappers

  /** Where wait is. */
  datatype Waiter =
    | Outside                              // not in a park
    | Swapping(until: Option<nat>)         // to swap 0 in
    | Timing(until: Option<nat>)           // it was 0: to look at the time
    | Calling(until: Option<nat>)          // to make FUTEX_WAIT, for 0
    | Sleeping(until: Option<nat>)         // in it
    | Returned(woken: bool)

  /** Where a wake is. */
  datatype Waker = Quiet | MustWake

  datatype State = State(word: nat, waiter: Waiter, wakers: seq<Waker>, now: nat)

  datatype Event =
    | Tick(ns: nat)
    | Park(until: Option<nat>)   // wait is called
    | Wait                       // its next step
    | Interrupt                  // FUTEX_WAIT returns: its time, a signal, or nothing
    | Leave                      // its caller goes on
    | Swap(waker: nat)           // wake is called: its swap
    | FutexWake(waker: nat)

  predicate InPark(w: Waiter) {
    w.Swapping? || w.Timing? || w.Calling? || w.Sleeping?
  }

  /** wait's next step: FUTEX_WAIT sleeps only while the word is 0. */
  function WaitStep(s: State): Option<State> {
    match s.waiter
    case Swapping(until) =>
      Some(s.(word := 0, waiter := if s.word == 1 then Returned(true) else Timing(until)))
    case Timing(until) =>
      Some(s.(waiter := if until.Some? && until.value <= s.now then Returned(false) else Calling(until)))
    case Calling(until) => Some(s.(waiter := if s.word == 0 then Sleeping(until) else Swapping(until)))
    case _ => None
  }

  function Awake(w: Waiter): Waiter {
    if w.Sleeping? then Swapping(w.until) else w
  }

  function Step(s: State, e: Event): Option<State> {
    match e
    case Tick(ns) => Some(s.(now := s.now + ns))
    case Park(until) => if s.waiter.Outside? then Some(s.(waiter := Swapping(until))) else None
    case Wait => WaitStep(s)
    case Interrupt => if s.waiter.Sleeping? then Some(s.(waiter := Awake(s.waiter))) else None
    case Leave => if s.waiter.Returned? then Some(s.(waiter := Outside)) else None
    case Swap(i) =>
      if i < |s.wakers| && s.wakers[i].Quiet? then
        Some(s.(word := 1, wakers := s.wakers[i := if s.word == 0 then MustWake else Quiet]))
      else None
    case FutexWake(i) =>
      if i < |s.wakers| && s.wakers[i].MustWake? then
        Some(s.(waiter := Awake(s.waiter), wakers := s.wakers[i := Quiet]))
      else None
  }

  function Exec(s: State, events: seq<Event>): Option<State> {
    if events == [] then Some(s)
    else
      match Exec(s, events[..|events| - 1])
      case None => None
      case Some(s') => Step(s', events[|events| - 1])
  }

  function Init(n: nat): State {
    State(0, Outside, seq(n, i => Quiet), 0)
  }

  // ----- no wake is lost

  ghost predicate Inv(s: State) {
    && s.word <= 1
    && (s.waiter.Sleeping? && s.word == 1 ==> exists i :: 0 <= i < |s.wakers| && s.wakers[i].MustWake?)
  }

  lemma StepKeeps(s: State, e: Event, s': State)
    requires Inv(s) && Step(s, e) == Some(s')
    ensures Inv(s')
  {
    match e
    case Swap(i) =>
      if s.word == 0 {
        assert s'.wakers[i].MustWake?;
      } else if s.waiter.Sleeping? {
        var j :| 0 <= j < |s.wakers| && s.wakers[j].MustWake?;
        assert s'.wakers[j].MustWake?;
      }
    case _ =>
  }

  lemma {:induction false} RunKeeps(s: State, events: seq<Event>, s': State)
    requires Inv(s) && Exec(s, events) == Some(s')
    ensures Inv(s')
  {
    if events != [] {
      var last := |events| - 1;
      RunKeeps(s, events[..last], Exec(s, events[..last]).value);
      StepKeeps(Exec(s, events[..last]).value, events[last], s');
    }
  }

  /** If the waiter sleeps while the word is 1, some waker is between its swap and its FUTEX_WAKE. */
  lemma NoLostWake(n: nat, events: seq<Event>, s: State)
    requires Exec(Init(n), events) == Some(s) && s.waiter.Sleeping? && s.word == 1
    ensures exists i :: 0 <= i < |s.wakers| && s.wakers[i].MustWake?
  {
    RunKeeps(Init(n), events, s);
  }

  // ----- the token

  /** What an event is to the vCPU model: its park's token given, taken, or its time passed, or nothing. */
  datatype Effect = Nothing | Given | Taken | Expired

  function EffectOf(s: State, e: Event): Effect {
    match e
    case Swap(_) => Given
    case Wait =>
      if s.waiter.Swapping? && s.word == 1 then Taken
      else if s.waiter.Timing? && s.waiter.until.Some? && s.waiter.until.value <= s.now then Expired
      else Nothing
    case _ => Nothing
  }

  /** The futex word is the token: every step gives it, takes it and ends the park woken, ends the park
      with its time passed, or does not touch it. */
  lemma Refines(s: State, e: Event, s': State)
    requires Inv(s) && Step(s, e) == Some(s')
    ensures match EffectOf(s, e)
            case Given => s'.word == 1 && s'.waiter == s.waiter
            case Taken => s.word == 1 && s'.word == 0 && InPark(s.waiter) && s'.waiter == Returned(true)
            case Expired =>
              s'.word == s.word && s.waiter.until.Some? && s.waiter.until.value <= s.now && s'.waiter == Returned(false)
            case Nothing => s'.word == s.word && (s'.waiter.Returned? ==> s'.waiter == s.waiter)
  {
  }

  // ----- a wake ends one park

  /** How many of a run's events do so to the token. */
  function Times(s: State, events: seq<Event>, f: Effect): nat {
    if events == [] then 0
    else
      match Exec(s, events[..|events| - 1])
      case None => 0
      case Some(before) => Times(s, events[..|events| - 1], f) + if EffectOf(before, events[|events| - 1]) == f then 1 else 0
  }

  /** No more parks are ended by a wake than there are wakes, and the token is one that no park has had. */
  lemma {:induction false} WakesSpent(n: nat, events: seq<Event>, s: State)
    requires Exec(Init(n), events) == Some(s)
    ensures Times(Init(n), events, Taken) + s.word <= Times(Init(n), events, Given)
  {
    if events != [] {
      var last := |events| - 1;
      var before := Exec(Init(n), events[..last]).value;
      WakesSpent(n, events[..last], before);
      RunKeeps(Init(n), events[..last], before);
      Refines(before, events[last], s);
    }
  }

  // ----- a wake ends a park

  /** The steps before a park whose token is set returns, at most: its own, and the FUTEX_WAKE that ends its sleep. */
  function Rank(w: Waiter): nat {
    match w
    case Timing(_) => 3
    case Calling(_) => 2
    case Sleeping(_) => 2
    case Swapping(_) => 1
    case _ => 0
  }

  /** An event of the waiter's thread, or one that ends its sleep. */
  predicate Moves(s: State, e: Event) {
    e.Wait? || e.Interrupt? || (e.FutexWake? && s.waiter.Sleeping?)
  }

  /** While the token is set every step of the park brings its return nearer, and a park that returns
      without it leaves it to the next. */
  lemma TokenNears(s: State, e: Event, s': State)
    requires Inv(s) && s.word == 1 && InPark(s.waiter) && Step(s, e) == Some(s')
    ensures Moves(s, e) ==> Rank(s'.waiter) < Rank(s.waiter)
    ensures !Moves(s, e) ==> s'.waiter == s.waiter
    ensures s'.waiter == Returned(true) || s'.word == 1
    ensures s'.waiter.Returned? || InPark(s'.waiter)
  {
  }

  /** How many of a run's events are the park's. */
  function Nearer(s: State, events: seq<Event>): nat {
    if events == [] then 0
    else
      match Exec(s, events[..|events| - 1])
      case None => 0
      case Some(before) => Nearer(s, events[..|events| - 1]) + if Moves(before, events[|events| - 1]) then 1 else 0
  }

  /** A park in which the token is set: any run in which it has not returned has few steps of it, and the token still. */
  lemma {:induction false} WakeEndsPark(s: State, events: seq<Event>, s': State)
    requires Inv(s) && s.word == 1 && InPark(s.waiter) && Exec(s, events) == Some(s')
    requires forall k :: 0 <= k <= |events| ==> Exec(s, events[..k]).Some? && InPark(Exec(s, events[..k]).value.waiter)
    ensures s'.word == 1 && Nearer(s, events) + Rank(s'.waiter) <= Rank(s.waiter) <= 3
  {
    assert events[..|events|] == events;
    if events != [] {
      var last := |events| - 1;
      var before := Exec(s, events[..last]).value;
      forall k | 0 <= k <= last
        ensures Exec(s, events[..last][..k]).Some? && InPark(Exec(s, events[..last][..k]).value.waiter)
      {
        assert events[..last][..k] == events[..k];
      }
      WakeEndsPark(s, events[..last], before);
      RunKeeps(s, events[..last], before);
      TokenNears(before, events[last], s');
    }
  }

  /** And it is not stuck, though its sleep may have no time: a step of its own, or a waker's FUTEX_WAKE, can be taken. */
  lemma ParkMoves(s: State)
    requires Inv(s) && s.word == 1 && InPark(s.waiter)
    ensures exists e: Event :: !e.Interrupt? && Moves(s, e) && Step(s, e).Some?
  {
    if s.waiter.Sleeping? {
      var i :| 0 <= i < |s.wakers| && s.wakers[i].MustWake?;
      assert Moves(s, FutexWake(i)) && Step(s, FutexWake(i)).Some?;
    } else {
      assert Moves(s, Wait) && Step(s, Wait).Some?;
    }
  }

  predicate NoTake(s: State, events: seq<Event>) {
    forall k :: 0 <= k < |events| && Exec(s, events[..k]).Some? ==> EffectOf(Exec(s, events[..k]).value, events[k]) != Taken
  }

  /** A wake given outside a park is kept until a park takes it. */
  lemma {:induction false} TokenKept(s: State, events: seq<Event>, s': State)
    requires Inv(s) && s.word == 1 && Exec(s, events) == Some(s') && NoTake(s, events)
    ensures s'.word == 1
  {
    if events != [] {
      var last := |events| - 1;
      var before := Exec(s, events[..last]).value;
      forall k | 0 <= k < last && Exec(s, events[..last][..k]).Some?
        ensures EffectOf(Exec(s, events[..last][..k]).value, events[..last][k]) != Taken
      {
        assert events[..last][..k] == events[..k];
      }
      TokenKept(s, events[..last], before);
      RunKeeps(s, events[..last], before);
      Refines(before, events[last], s');
    }
  }
}
