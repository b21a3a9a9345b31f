/**
 The auto-lock machine of autolock.rs.  Every mutex section is one step, so a run is
 any interleaving of the ticker, lock requests, lifecycle changes and unlocks; the
 ticker's check and its act are separate sections, and so are the lock action and the
 event that `fire_lock` runs outside the mutex.
*/
module AutoLock {

  datatype Lifecycle = Foreground | Background

  /** Flips to locked are numbered from 0.  `armed` counts tickers between check and
      act; `pending` and `unannounced` are the flips whose lock action, and whose event,
      is still to come; `ran` lists the flips whose action ran, in order. */
  datatype State = State(
    lastActivityMs: int,
    lockAfterMs: int,
    lifecycle: Lifecycle,
    locked: bool,
    armed: nat,
    lockFlips: nat,
    unlockFlips: nat,
    pending: set<nat>,
    ran: seq<nat>,
    unannounced: set<nat>,
    announced: seq<nat>)

  function Initial(now: int): State {
    State(now, 0, Foreground, false, 0, 0, 0, {}, [], {}, [])
  }

  datatype Step =
    | PointerActivity(now: int)
    | LifecycleChange(state: Lifecycle, now: int)
    | SetTimeout(minutes: I64, now: int)
    | RequestLock
    | Unlock(now: int)
    | TickCheck(now: int)
    | TickAct
    | RunAction(flip: nat)
    | Announce(flip: nat)

  const I64_LIMIT := 0x8000_0000_0000_0000

  type I64 = n: int | -I64_LIMIT <= n < I64_LIMIT

  /** What an `i64` product holds in a release build. */
  function WrapI64(n: int): I64 {
    (n + I64_LIMIT) % (2 * I64_LIMIT) - I64_LIMIT
  }

  function LockAfter(minutes: I64): I64 {
    WrapI64((if minutes > 0 then minutes else 0) * 60_000)
  }

  /** The timeout is the one asked for exactly when the product fits. */
  lemma TimeoutKeptIff(minutes: I64)
    ensures LockAfter(minutes) == (if minutes > 0 then minutes else 0) * 60_000 <==> minutes <= (I64_LIMIT - 1) / 60_000
  {
  }

  /** A product that does not fit can switch the idle lock off. */
  lemma HugeTimeoutSwitchesOff()
    ensures LockAfter(I64_LIMIT / 60_000 + 1) < 0
  {
  }

  predicate ShouldLock(s: State, now: int) {
    !s.locked && s.lockAfterMs > 0 && now - s.lastActivityMs >= s.lockAfterMs
  }

  /** The mutex section that sets `locked` and hands the flip to `fire_lock`. */
  function Flip(s: State): State {
    s.(locked := true, lockFlips := s.lockFlips + 1, pending := s.pending + {s.lockFlips})
  }

  predicate Enabled(s: State, step: Step) {
    match step
    case TickAct => s.armed > 0
    case RunAction(flip) => flip in s.pending
    case Announce(flip) => flip in s.unannounced
    case _ => true
  }

  function Apply(s: State, step: Step): State
    requires Enabled(s, step)
  {
    match step
    case PointerActivity(now) => s.(lastActivityMs := now)
    case LifecycleChange(state, now) =>
      var t := s.(lifecycle := state);
      if state == Background && s.lockAfterMs > 0 && !s.locked then Flip(t)
      else if state != s.lifecycle then t.(lastActivityMs := now) else t
    case SetTimeout(minutes, now) =>
      s.(lockAfterMs := LockAfter(minutes), lastActivityMs := now)
    case RequestLock => if s.locked then s else Flip(s)
    case Unlock(now) =>
      if s.locked then s.(locked := false, unlockFlips := s.unlockFlips + 1, lastActivityMs := now) else s
    case TickCheck(now) => if ShouldLock(s, now) then s.(armed := s.armed + 1) else s
    case TickAct =>
      var t := s.(armed := s.armed - 1);
      if s.locked then t else Flip(t)
    case RunAction(flip) =>
      s.(pending := s.pending - {flip}, ran := s.ran + [flip], unannounced := s.unannounced + {flip})
    case Announce(flip) => s.(unannounced := s.unannounced - {flip}, announced := s.announced + [flip])
  }

  predicate ValidRun(s: State, steps: seq<Step>)
    decreases |steps|
  {
    steps == [] || (Enabled(s, steps[0]) && ValidRun(Apply(s, steps[0]), steps[1..]))
  }

  function Run(s: State, steps: seq<Step>): State
    requires ValidRun(s, steps)
    decreases |steps|
  {
    if steps == [] then s else Run(Apply(s, steps[0]), steps[1..])
  }

  // ---------------------------------------------------------------------- the code

  datatype BusEvent = LockedEvent | UnlockedEvent | TimeoutChangedEvent(minutes: int)

  /** The mutex-guarded fields, the events published, and the history of the run. */
  class AutoLockMachine {
    var events: seq<BusEvent>
    var lastActivityMs: int
    var lockAfterMs: int
    var lifecycle: Lifecycle
    var locked: bool
    ghost var history: State

    ghost function Model(): State
      reads this
    {
      history.(lastActivityMs := lastActivityMs, lockAfterMs := lockAfterMs, lifecycle := lifecycle, locked := locked)
    }

    constructor (now: int)
      ensures Model() == Initial(now) && events == []
    {
      events := [];
      lastActivityMs, lockAfterMs, lifecycle, locked := now, 0, Foreground, false;
      history := Initial(now);
    }

    method OnPointerActivity(now: int)
      modifies this
      ensures Model() == Apply(old(Model()), PointerActivity(now)) && events == old(events)
    {
      lastActivityMs := now;
    }

    /** Each of the four lock paths returns whether the caller goes on to `fire_lock`. */
    method OnLifecycleChange(state: Lifecycle, now: int) returns (fire: bool)
      modifies this
      ensures Model() == Apply(old(Model()), LifecycleChange(state, now)) && events == old(events)
      ensures fire <==> !old(locked) && locked
    {
      var was := lifecycle;
      lifecycle := state;
      if state == Background && lockAfterMs > 0 && !locked {
        locked := true;
        history := Flip(history);
        return true;
      }
      if state != was {
        lastActivityMs := now;
      }
      return false;
    }

    method SetTimeoutMinutes(minutes: I64, now: int)
      modifies this
      ensures Model() == Apply(old(Model()), SetTimeout(minutes, now))
      ensures events == old(events) + [TimeoutChangedEvent(if minutes > 0 then minutes else 0)]
    {
      var clamped := if minutes > 0 then minutes else 0;
      lockAfterMs := WrapI64(clamped * 60_000);
      lastActivityMs := now;
      events := events + [TimeoutChangedEvent(clamped)];
    }

    method RequestLockNow() returns (fire: bool)
      modifies this
      ensures Model() == Apply(old(Model()), RequestLock) && events == old(events)
      ensures fire <==> !old(locked) && locked
    {
      if locked {
        return false;
      }
      locked := true;
      history := Flip(history);
      return true;
    }

    method Release(now: int)
      modifies this
      ensures Model() == Apply(old(Model()), Unlock(now))
      ensures events == old(events) + if old(locked) then [UnlockedEvent] else []
    {
      if !locked {
        return;
      }
      locked := false;
      lastActivityMs := now;
      history := history.(unlockFlips := history.unlockFlips + 1);
      events := events + [UnlockedEvent];
    }

    /** `fire_lock`: the registered action, then the event. */
    method FireLock(ghost flip: nat)
      requires flip in Model().pending
      modifies this
      ensures Model() == Apply(Apply(old(Model()), RunAction(flip)), Announce(flip))
      ensures events == old(events) + [LockedEvent]
    {
      history := Apply(history, RunAction(flip));
      events := events + [LockedEvent];
      history := Apply(history, Announce(flip));
    }

    method CheckIdle(now: int) returns (shouldLock: bool)
      modifies this
      ensures Model() == Apply(old(Model()), TickCheck(now)) && events == old(events)
      ensures shouldLock <==> ShouldLock(old(Model()), now)
    {
      shouldLock := !locked && lockAfterMs > 0 && now - lastActivityMs >= lockAfterMs;
      if shouldLock {
        history := history.(armed := history.armed + 1);
      }
    }

    method LockIdle() returns (fire: bool)
      requires Enabled(Model(), TickAct)
      modifies this
      ensures Model() == Apply(old(Model()), TickAct) && events == old(events)
      ensures fire <==> !old(locked) && locked
    {
      history := history.(armed := history.armed - 1);
      if locked {
        return false;
      }
      locked := true;
      history := Flip(history);
      return true;
    }
  }

  // --------------------------------------------------------------------- invariant

  predicate Distinct(s: seq<nat>) {
    forall i, j :: 0 <= i < j < |s| ==> s[i] != s[j]
  }

  /** Every flip so far is pending, or its action has run once and its event is still to
      come or was published once. */
  ghost predicate Accounted(s: State) {
    && (forall f: nat :: f in s.pending || f in s.ran <==> f < s.lockFlips)
    && (forall f :: f in s.pending ==> f !in s.ran)
    && (forall f :: f in s.unannounced || f in s.announced <==> f in s.ran)
    && (forall f :: f in s.unannounced ==> f !in s.announced)
    && Distinct(s.ran) && Distinct(s.announced)
  }

  ghost predicate Inv(s: State) {
    && Accounted(s)
    && |s.ran| + |s.pending| == s.lockFlips
    && |s.announced| + |s.unannounced| == |s.ran|
    && s.lockFlips == s.unlockFlips + if s.locked then 1 else 0
  }

  lemma FlipInv(s: State)
    requires Inv(s) && !s.locked
    ensures Inv(Flip(s))
  {
  }

  lemma RunActionInv(s: State, flip: nat)
    requires Inv(s) && flip in s.pending
    ensures Inv(Apply(s, RunAction(flip)))
  {
  }

  lemma AnnounceInv(s: State, flip: nat)
    requires Inv(s) && flip in s.unannounced
    ensures Inv(Apply(s, Announce(flip)))
  {
  }

  /** The fields the accounting does not look at. */
  lemma OtherFieldsInv(s: State, t: State)
    requires Inv(s)
    requires t == s.(lastActivityMs := t.lastActivityMs, lockAfterMs := t.lockAfterMs, lifecycle := t.lifecycle,
                     armed := t.armed)
    ensures Inv(t)
  {
  }

  lemma StepInv(s: State, step: Step)
    requires Inv(s) && Enabled(s, step)
    ensures Inv(Apply(s, step))
  {
    var t := Apply(s, step);
    match step
    case RunAction(flip) => RunActionInv(s, flip);
    case Announce(flip) => AnnounceInv(s, flip);
    case Unlock(now) => if s.locked { UnlockInv(s, now); }
    case PointerActivity(_) => OtherFieldsInv(s, t);
    case SetTimeout(_, _) => OtherFieldsInv(s, t);
    case TickCheck(_) => OtherFieldsInv(s, t);
    case RequestLock => if !s.locked { FlipInv(s); }
    case TickAct =>
      OtherFieldsInv(s, s.(armed := s.armed - 1));
      if !s.locked { FlipInv(s.(armed := s.armed - 1)); }
    case LifecycleChange(state, now) =>
      if state == Background && s.lockAfterMs > 0 && !s.locked {
        OtherFieldsInv(s, s.(lifecycle := state));
        FlipInv(s.(lifecycle := state));
      } else {
        OtherFieldsInv(s, t);
      }
  }

  lemma UnlockInv(s: State, now: int)
    requires Inv(s) && s.locked
    ensures Inv(Apply(s, Unlock(now)))
  {
  }

  lemma {:induction false} RunInv(s: State, steps: seq<Step>)
    requires Inv(s) && ValidRun(s, steps)
    ensures Inv(Run(s, steps))
    decreases |steps|
  {
    if steps != [] {
      StepInv(s, steps[0]);
      RunInv(Apply(s, steps[0]), steps[1..]);
    }
  }

  /** Over every interleaving: lock actions run plus lock actions under way are the
      flips to locked, flips back lag by one exactly while locked, and no flip runs its
      action or publishes its event twice. */
  lemma LocksAccountedFor(now: int, steps: seq<Step>)
    requires ValidRun(Initial(now), steps)
    ensures
      var s := Run(Initial(now), steps);
      && |s.ran| + |s.pending| == s.lockFlips
      && s.lockFlips - s.unlockFlips == (if s.locked then 1 else 0)
      && Distinct(s.ran) && Distinct(s.announced)
      && (forall f :: f in s.announced ==> f in s.ran) && (forall f :: f in s.ran ==> f < s.lockFlips)
  {
    RunInv(Initial(now), steps);
  }

  // ------------------------------------------------ the action and its locked period

  lemma {:induction false} UnlocksGrow(s: State, steps: seq<Step>)
    requires ValidRun(s, steps)
    ensures Run(s, steps).unlockFlips >= s.unlockFlips
    decreases |steps|
  {
    if steps != [] {
      UnlocksGrow(Apply(s, steps[0]), steps[1..]);
    }
  }

  /** From a locked state on, a run is still in the locked period of flip `lockFlips - 1`
      exactly when none of its steps is an unlock; so the flip's action, whenever it comes,
      finds its own period exactly when no unlock has overtaken it. */
  lemma {:induction false} ActionInItsPeriodIff(s: State, after: seq<Step>)
    requires Inv(s) && s.locked && ValidRun(s, after)
    ensures
      var t := Run(s, after);
      t.locked && t.lockFlips == s.lockFlips <==> forall i :: 0 <= i < |after| ==> !after[i].Unlock?
    decreases |after|
  {
    if after != [] {
      var next := Apply(s, after[0]);
      StepInv(s, after[0]);
      RunInv(next, after[1..]);
      if after[0].Unlock? {
        UnlocksGrow(next, after[1..]);
      } else {
        ActionInItsPeriodIff(next, after[1..]);
        assert forall i :: 0 <= i < |after[1..]| ==> after[1..][i] == after[i + 1];
      }
    }
  }

  /** An unlock can overtake the action: the secrets are wiped after the unlock. */
  lemma ActionAfterUnlock()
    ensures
      var steps := [RequestLock, Unlock(5), RunAction(0)];
      ValidRun(Initial(0), steps) && !Run(Initial(0), steps).locked && Run(Initial(0), steps).ran == [0]
  {
  }

  // ------------------------------------------------------- the ticker and its check

  /** Idle at `now`, whether locked or not. */
  predicate Idle(s: State, now: int) {
    s.lockAfterMs > 0 && now - s.lastActivityMs >= s.lockAfterMs
  }

  /** The step starts a new idle window. */
  predicate Restarts(s: State, step: Step) {
    match step
    case PointerActivity(_) => true
    case SetTimeout(_, _) => true
    case Unlock(_) => s.locked
    case LifecycleChange(state, _) =>
      state != s.lifecycle && !(state == Background && s.lockAfterMs > 0 && !s.locked)
    case _ => false
  }

  ghost predicate SomeRestarts(s: State, steps: seq<Step>)
    requires ValidRun(s, steps)
    decreases |steps|
  {
    steps != [] && (Restarts(s, steps[0]) || SomeRestarts(Apply(s, steps[0]), steps[1..]))
  }

  /** No step reads a clock earlier than `now`. */
  predicate ClocksFrom(now: int, steps: seq<Step>) {
    forall i :: 0 <= i < |steps| ==>
      match steps[i]
      case PointerActivity(t) => t >= now
      case LifecycleChange(_, t) => t >= now
      case SetTimeout(_, t) => t >= now
      case Unlock(t) => t >= now
      case _ => true
  }

  lemma ClocksTail(now: int, steps: seq<Step>)
    requires ClocksFrom(now, steps) && steps != []
    ensures ClocksFrom(now, steps[1..]) && ClocksFrom(now, [steps[0]])
  {
    assert forall i :: 0 <= i < |steps[1..]| ==> steps[1..][i] == steps[i + 1];
  }

  lemma {:induction false} RestartedStays(s: State, now: int, steps: seq<Step>)
    requires s.lastActivityMs >= now && ValidRun(s, steps) && ClocksFrom(now, steps)
    ensures Run(s, steps).lastActivityMs >= now
    decreases |steps|
  {
    if steps != [] {
      ClocksTail(now, steps);
      assert [steps[0]][0] == steps[0];
      RestartedStays(Apply(s, steps[0]), now, steps[1..]);
    }
  }

  /** What the ticker's check saw at `now` is still so when it acts, exactly when no step
      in between has started a new idle window. */
  lemma {:induction false} StillIdleIff(s: State, now: int, between: seq<Step>)
    requires Idle(s, now) && ValidRun(s, between) && ClocksFrom(now, between)
    ensures Idle(Run(s, between), now) <==> !SomeRestarts(s, between)
    decreases |between|
  {
    if between != [] {
      var next := Apply(s, between[0]);
      ClocksTail(now, between);
      assert [between[0]][0] == between[0];
      if Restarts(s, between[0]) {
        RestartedStays(next, now, between[1..]);
      } else {
        StillIdleIff(next, now, between[1..]);
      }
    }
  }

  /** The ticker's act after its check: it locks whatever is unlocked by then, and takes
      a user who is no longer idle exactly when the idle window was restarted in between. */
  lemma TickerTakesActiveUserIff(s: State, now: int, between: seq<Step>)
    requires ShouldLock(s, now) && ValidRun(Apply(s, TickCheck(now)), between) && ClocksFrom(now, between)
    requires Enabled(Run(Apply(s, TickCheck(now)), between), TickAct)
    ensures
      var seen := Apply(s, TickCheck(now));
      var t := Run(seen, between);
      var acted := Apply(t, TickAct);
      && acted.locked && (acted.lockFlips == t.lockFlips + 1 <==> !t.locked)
      && (!Idle(t, now) <==> SomeRestarts(seen, between))
      && (acted.lockFlips == t.lockFlips + 1 && !Idle(t, now) <==> !t.locked && SomeRestarts(seen, between))
  {
    StillIdleIff(Apply(s, TickCheck(now)), now, between);
  }

  /** The ticker does not look at the clock again when it acts: activity between check
      and act does not stop the lock. */
  lemma TickerLocksActiveUser()
    ensures
      var steps := [SetTimeout(1, 0), TickCheck(60_000), PointerActivity(60_000), TickAct];
      && ValidRun(Initial(0), steps)
      && Run(Initial(0), steps).locked && Run(Initial(0), steps).lastActivityMs == 60_000
  {
  }

  // ------------------------------------------------------------------ when it locks

  /** What takes an unlocked machine to locked: a request, the ticker, or a change to the
      background while a timeout is set; and nothing else. */
  lemma LocksIff(s: State, step: Step)
    requires !s.locked && Enabled(s, step)
    ensures
      var t := Apply(s, step);
      && (t.locked <==>
          step == RequestLock || step == TickAct ||
          (step.LifecycleChange? && step.state == Background && s.lockAfterMs > 0))
      && t.lockFlips == s.lockFlips + (if t.locked then 1 else 0)
      && t.pending ==
         s.pending + (if t.locked then {s.lockFlips} else {}) - (if step.RunAction? then {step.flip} else {})
  {
  }

  /** A locked machine leaves that state by an unlock only, and does not lock again. */
  lemma UnlocksIff(s: State, step: Step)
    requires s.locked && Enabled(s, step)
    ensures
      var t := Apply(s, step);
      && (!t.locked <==> step.Unlock?) && t.lockFlips == s.lockFlips
      && t.unlockFlips == s.unlockFlips + (if t.locked then 0 else 1)
  {
  }

  /** The ticker's check comes out positive exactly when the machine is unlocked, a timeout
      is set, and it has passed since the last activity. */
  lemma ArmsIff(s: State, now: int)
    ensures
      Apply(s, TickCheck(now)).armed == s.armed + 1 <==>
      !s.locked && s.lockAfterMs > 0 && now >= s.lastActivityMs + s.lockAfterMs
  {
  }

  /** Where the idle window starts: at the step's clock for activity, a new timeout, an
      unlock and a return to the foreground, and as before for the rest. */
  lemma WindowStarts(s: State, now: int, minutes: I64)
    ensures Apply(s, PointerActivity(now)) == s.(lastActivityMs := now)
    ensures
      var t := Apply(s, SetTimeout(minutes, now));
      && t.lastActivityMs == now && (minutes <= 0 ==> t.lockAfterMs == 0)
      && (0 < minutes <= 1_000_000 ==> t.lockAfterMs == minutes * 60_000)
    ensures Apply(s, Unlock(now)).lastActivityMs == if s.locked then now else s.lastActivityMs
    ensures Apply(s, LifecycleChange(Foreground, now)).lastActivityMs ==
            if s.lifecycle == Background then now else s.lastActivityMs
    ensures forall state :: Apply(s, LifecycleChange(state, now)).lifecycle == state
    ensures Apply(s, RequestLock).lastActivityMs == s.lastActivityMs == Apply(s, TickCheck(now)).lastActivityMs
  {
  }

  /** With the timeout off and no check outstanding, only a request locks: through any run
      of other steps the machine stays unlocked and no check comes out positive. */
  lemma {:induction false} OffStaysUnlocked(s: State, steps: seq<Step>)
    requires !s.locked && s.lockAfterMs <= 0 && s.armed == 0 && ValidRun(s, steps)
    requires forall i :: 0 <= i < |steps| ==> !steps[i].SetTimeout? && !steps[i].RequestLock?
    ensures
      var t := Run(s, steps);
      !t.locked && t.lockFlips == s.lockFlips && t.armed == 0 && t.lockAfterMs <= 0
    decreases |steps|
  {
    if steps != [] {
      assert forall i :: 0 <= i < |steps[1..]| ==> steps[1..][i] == steps[i + 1];
      LocksIff(s, steps[0]);
      OffStaysUnlocked(Apply(s, steps[0]), steps[1..]);
    }
  }
}
