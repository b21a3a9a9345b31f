/**
 The security-key broker of macos/Runner/SecurityKeyBroker.swift (and of its iOS twin):
 the `pending` map, the three paths that remove an entry and signal the caller, and every
 interleaving of them.  A section under the lock is one step, and so is each signal: the OS
 callback signals and then drops its tag, the timer and the drain remove and then signal.
*/
module Broker {
  import opened Collections

  type Tag = nat

  function Bump(m: map<Tag, nat>, t: Tag): map<Tag, nat> {
    m[t := Tally(m, t) + 1]
  }

  function Drop(m: map<Tag, nat>, t: Tag): map<Tag, nat> {
    m[t := if Tally(m, t) == 0 then 0 else Tally(m, t) - 1]
  }

  /** `pending` holds the delegate of each tag; `calling` the delegates whose callback has
      signalled but not dropped its tag yet; `taken` the tags that a timer or the drain has
      removed but not signalled yet; `reapers` counts the timers still to run. */
  datatype State = State(
    pending: map<Tag, nat>,
    calling: map<nat, Tag>,
    taken: multiset<Tag>,
    reapers: map<Tag, nat>,
    signals: map<Tag, nat>,
    requests: map<Tag, nat>,
    next: nat)

  const INITIAL := State(map[], map[], multiset{}, map[], map[], map[], 0)

  datatype Step =
    | Request(tag: Tag)
    | Fire(tag: Tag)
    | FireTaken(tag: Tag)
    | Return(delegate: nat)
    | Reap(tag: Tag)
    | Drain
    | Deliver(tag: Tag)

  function Signal(s: State, t: Tag): State {
    s.(signals := Bump(s.signals, t))
  }

  function Apply(s: State, step: Step): State {
    match step
    case Request(t) =>
      s.(pending := s.pending[t := s.next], reapers := Bump(s.reapers, t), requests := Bump(s.requests, t),
         next := s.next + 1)
    case Fire(t) => if t in s.pending then Signal(s, t).(calling := s.calling[s.pending[t] := t]) else s
    case FireTaken(t) => Signal(s, t).(calling := s.calling[s.next := t], next := s.next + 1)
    case Return(d) =>
      if d in s.calling then s.(pending := s.pending - {s.calling[d]}, calling := s.calling - {d}) else s
    case Reap(t) =>
      var ran := s.(reapers := Drop(s.reapers, t));
      if t in s.pending then ran.(pending := s.pending - {t}, taken := s.taken + multiset{t}) else ran
    case Drain => s.(pending := map[], taken := s.taken + multiset(s.pending.Keys))
    case Deliver(t) => Signal(s, t).(taken := s.taken - multiset{t})
  }

  /** How the broker is driven: whether callbacks, timers and the drain share the main
      queue, and whether a tag that is still pending is never requested again. */
  datatype Discipline = Discipline(serial: bool, unshared: bool)

  /** Nothing of the broker is under way. */
  predicate Quiet(s: State) {
    s.calling == map[] && s.taken == multiset{}
  }

  /** A delegate is called at most once, and lives as long as its pending entry or, once a
      timer or the drain has removed that, until they have signalled.  On the main queue
      a removal and its signals are one piece of work. */
  predicate Enabled(d: Discipline, s: State, step: Step) {
    match step
    case Request(t) => d.unshared ==> t !in s.pending
    case Fire(t) => t in s.pending && s.pending[t] !in s.calling && (d.serial ==> Quiet(s))
    case FireTaken(t) => t in s.taken && !d.serial
    case Return(c) => c in s.calling
    case Reap(t) => Tally(s.reapers, t) > 0 && (d.serial ==> Quiet(s))
    case Drain => d.serial ==> Quiet(s)
    case Deliver(t) => t in s.taken
  }

  predicate ValidRun(d: Discipline, s: State, steps: seq<Step>)
    decreases |steps|
  {
    steps == [] || (Enabled(d, s, steps[0]) && ValidRun(d, Apply(s, steps[0]), steps[1..]))
  }

  function Run(s: State, steps: seq<Step>): State
    decreases |steps|
  {
    if steps == [] then s else Run(Apply(s, steps[0]), steps[1..])
  }

  // ----------------------------------------------------------------- what was counted

  function One(step: Step, counted: Step): nat {
    if step == counted then 1 else 0
  }

  function Times(steps: seq<Step>, step: Step): nat
    decreases |steps|
  {
    if steps == [] then 0 else One(steps[0], step) + Times(steps[1..], step)
  }

  lemma StepRequests(s: State, step: Step, t: Tag)
    ensures Tally(Apply(s, step).requests, t) == Tally(s.requests, t) + One(step, Request(t))
  {
  }

  lemma StepReapers(s: State, step: Step, t: Tag)
    requires step.Reap? ==> Tally(s.reapers, step.tag) > 0
    ensures Tally(Apply(s, step).reapers, t) == Tally(s.reapers, t) + One(step, Request(t)) - One(step, Reap(t))
  {
  }

  lemma StepSignals(s: State, step: Step, t: Tag)
    requires step.Fire? ==> step.tag in s.pending
    ensures
      Tally(Apply(s, step).signals, t) ==
      Tally(s.signals, t) + One(step, Fire(t)) + One(step, FireTaken(t)) + One(step, Deliver(t))
  {
  }

  /** The counters of a run are the calls, the timers that have not run yet and the signals
      that its steps made: one timer for each request, whatever comes in between. */
  lemma {:induction false} CountersSay(s: State, steps: seq<Step>, t: Tag)
    requires ValidRun(Discipline(false, false), s, steps)
    ensures
      var end := Run(s, steps);
      && Tally(end.requests, t) == Tally(s.requests, t) + Times(steps, Request(t))
      && Tally(end.reapers, t) == Tally(s.reapers, t) + Times(steps, Request(t)) - Times(steps, Reap(t))
      && Tally(end.signals, t) ==
         Tally(s.signals, t) + Times(steps, Fire(t)) + Times(steps, FireTaken(t)) + Times(steps, Deliver(t))
    decreases |steps|
  {
    if steps != [] {
      StepRequests(s, steps[0], t);
      StepReapers(s, steps[0], t);
      StepSignals(s, steps[0], t);
      CountersSay(Apply(s, steps[0]), steps[1..], t);
    }
  }

  // ------------------------------------------------------------------- the account

  predicate Waiting(s: State, t: Tag) {
    t in s.pending && s.pending[t] !in s.calling
  }

  /** Requests that are still to be signalled. */
  function Owed(s: State, t: Tag): nat {
    s.taken[t] + if Waiting(s, t) then 1 else 0
  }

  /** Every request of the tag has been signalled once, except those still to be; and a tag
      with no timer left is not pending. */
  predicate AccountedFor(s: State, t: Tag) {
    && Tally(s.requests, t) == Tally(s.signals, t) + Owed(s, t)
    && (t in s.pending ==> Tally(s.reapers, t) > 0)
  }

  ghost predicate Accounted(s: State) {
    forall t :: AccountedFor(s, t)
  }

  ghost predicate Delegates(s: State) {
    && (forall t, u :: t in s.pending && u in s.pending && s.pending[t] == s.pending[u] ==> t == u)
    && (forall t :: t in s.pending ==> s.pending[t] < s.next)
    && (forall d :: d in s.calling ==> d < s.next && s.calling[d] in s.pending && s.pending[s.calling[d]] == d)
  }

  ghost predicate Inv(s: State) {
    Delegates(s) && Accounted(s)
  }

  const SOUND := Discipline(true, true)

  lemma DelegatesRequest(s: State, t: Tag)
    requires Delegates(s) && Enabled(SOUND, s, Request(t))
    ensures Delegates(Apply(s, Request(t)))
  {
  }

  lemma DelegatesFire(s: State, t: Tag)
    requires Delegates(s) && Enabled(SOUND, s, Fire(t))
    ensures Delegates(Apply(s, Fire(t)))
  {
  }

  lemma DelegatesRemoved(s: State, step: Step)
    requires Delegates(s) && Enabled(SOUND, s, step) && (step.Return? || step.Reap? || step.Drain?)
    ensures Delegates(Apply(s, step))
  {
  }

  lemma SoundIsHarmless(s: State, step: Step)
    requires Inv(s) && Enabled(SOUND, s, step)
    ensures Formed(s) && Harmless(s, step)
  {
    forall t | t in s.pending ensures Tally(s.reapers, t) > 0 {
      assert AccountedFor(s, t);
    }
  }

  lemma StepInv(s: State, step: Step)
    requires Inv(s) && Enabled(SOUND, s, step)
    ensures Inv(Apply(s, step))
  {
    match step {
      case Request(t) => DelegatesRequest(s, t);
      case Fire(t) => DelegatesFire(s, t);
      case Deliver(_) =>
      case _ => DelegatesRemoved(s, step);
    }
    SoundIsHarmless(s, step);
    StepAccountedIff(s, step);
  }

  lemma {:induction false} RunInv(s: State, steps: seq<Step>)
    requires Inv(s) && ValidRun(SOUND, s, steps)
    ensures Inv(Run(s, steps))
    decreases |steps|
  {
    if steps != [] {
      StepInv(s, steps[0]);
      RunInv(Apply(s, steps[0]), steps[1..]);
    }
  }

  /** Driven from the main queue and with a fresh tag for every request, the broker signals
      each tag at most once in every run, and exactly once by the time its timer is done. */
  lemma SignalledOnce(steps: seq<Step>, t: Tag)
    requires ValidRun(SOUND, INITIAL, steps) && Tally(Run(INITIAL, steps).requests, t) == 1
    ensures Tally(Run(INITIAL, steps).signals, t) <= 1
    ensures
      var s := Run(INITIAL, steps);
      Tally(s.reapers, t) == 0 && t !in s.taken ==> Tally(s.signals, t) == 1
  {
    RunInv(INITIAL, steps);
    var s := Run(INITIAL, steps);
    assert AccountedFor(s, t);
  }

  // ---------------------------------------------------------------- counterexamples

  /** A timer that fires between a callback's signal and its drop signals again. */
  lemma CallbackRacesTimer(unshared: bool) returns (steps: seq<Step>)
    ensures ValidRun(Discipline(false, unshared), INITIAL, steps)
    ensures Tally(Run(INITIAL, steps).requests, 0) == 1 && Tally(Run(INITIAL, steps).signals, 0) == 2
  {
    var d := Discipline(false, unshared);
    steps := [Request(0), Fire(0), Reap(0), Deliver(0)];
    var s1 := Apply(INITIAL, Request(0));
    var s2 := Apply(s1, Fire(0));
    var s3 := Apply(s2, Reap(0));
    Next(d, INITIAL, steps);
    Next(d, s1, steps[1..]);
    Next(d, s2, steps[2..]);
    Next(d, s3, steps[3..]);
  }

  /** So does a callback that comes between a timer's removal and its signal. */
  lemma TimerRacesCallback(unshared: bool) returns (steps: seq<Step>)
    ensures ValidRun(Discipline(false, unshared), INITIAL, steps)
    ensures Tally(Run(INITIAL, steps).requests, 0) == 1 && Tally(Run(INITIAL, steps).signals, 0) == 2
  {
    var d := Discipline(false, unshared);
    steps := [Request(0), Reap(0), FireTaken(0), Deliver(0)];
    var s1 := Apply(INITIAL, Request(0));
    var s2 := Apply(s1, Reap(0));
    var s3 := Apply(s2, FireTaken(0));
    Next(d, INITIAL, steps);
    Next(d, s1, steps[1..]);
    Next(d, s2, steps[2..]);
    Next(d, s3, steps[3..]);
  }

  lemma Next(d: Discipline, s: State, steps: seq<Step>)
    requires steps != [] && Enabled(d, s, steps[0])
    ensures Run(s, steps) == Run(Apply(s, steps[0]), steps[1..])
    ensures ValidRun(d, s, steps) <==> ValidRun(d, Apply(s, steps[0]), steps[1..])
  {
  }

  /** A tag requested again while it waits replaces the first request's entry, and the
      account is short by one. */
  lemma SharedTagIsLost(serial: bool) returns (steps: seq<Step>)
    ensures ValidRun(Discipline(serial, false), INITIAL, steps) && !Accounted(Run(INITIAL, steps))
  {
    steps := [Request(0), Request(0)];
    var s1 := Apply(INITIAL, Request(0));
    var s2 := Apply(s1, Request(0));
    assert steps[1..] == [Request(0)] && steps[1..][1..] == [];
    assert !AccountedFor(s2, 0);
  }

  /** Fewer signals than requests, those still to come counted in. */
  predicate Short(s: State, t: Tag) {
    Tally(s.requests, t) > Tally(s.signals, t) + Owed(s, t)
  }

  lemma {:induction false} StaysShort(s: State, steps: seq<Step>, t: Tag)
    requires Formed(s) && Short(s, t) && ValidRun(Discipline(true, false), s, steps)
    ensures Short(Run(s, steps), t)
    decreases |steps|
  {
    if steps != [] {
      FormedStep(s, steps[0]);
      ShortStep(s, steps[0], t);
      StaysShort(Apply(s, steps[0]), steps[1..], t);
    }
  }

  lemma ShortStep(s: State, step: Step, t: Tag)
    requires Formed(s) && Short(s, t) && Enabled(Discipline(true, false), s, step)
    ensures Short(Apply(s, step), t)
  {
  }

  /** On the main queue, one of the two requests is never signalled, whatever follows. */
  lemma SharedRequestNeverSignalled(s: State, t: Tag, after: seq<Step>)
    requires Formed(s) && AccountedFor(s, t) && Waiting(s, t)
    requires ValidRun(Discipline(true, false), Apply(s, Request(t)), after)
    ensures
      var end := Run(Apply(s, Request(t)), after);
      Tally(end.signals, t) < Tally(end.requests, t)
  {
    FormedStep(s, Request(t));
    StaysShort(Apply(s, Request(t)), after, t);
  }

  // ------------------------------------------------------------- run by run, exactly

  const LOOSE := Discipline(false, false)

  /** What holds however the broker is driven. */
  ghost predicate Formed(s: State) {
    && (forall t, u :: t in s.pending && u in s.pending && s.pending[t] == s.pending[u] ==> t == u)
    && (forall t :: t in s.pending ==> s.pending[t] < s.next && Tally(s.reapers, t) > 0)
    && (forall t :: t in s.pending && s.pending[t] in s.calling ==> s.calling[s.pending[t]] == t)
    && (forall d :: d in s.calling ==> d < s.next)
  }

  lemma FormedRequest(s: State, t: Tag)
    requires Formed(s)
    ensures Formed(Apply(s, Request(t)))
  {
  }

  lemma FormedFired(s: State, step: Step)
    requires Formed(s) && Enabled(LOOSE, s, step) && (step.Fire? || step.FireTaken?)
    ensures Formed(Apply(s, step))
  {
  }

  lemma FormedRemoved(s: State, step: Step)
    requires Formed(s) && Enabled(LOOSE, s, step) && (step.Return? || step.Reap? || step.Drain?)
    ensures Formed(Apply(s, step))
  {
  }

  lemma FormedStep(s: State, step: Step)
    requires Formed(s) && Enabled(LOOSE, s, step)
    ensures Formed(Apply(s, step))
  {
    match step
    case Request(t) => FormedRequest(s, t);
    case Fire(_) => FormedFired(s, step);
    case FireTaken(_) => FormedFired(s, step);
    case Deliver(_) =>
    case _ => FormedRemoved(s, step);
  }

  /** The step takes no waiting entry away without a signal to come, and leads to no second
      signal: no timer or drain hits a tag whose callback has signalled, and no callback
      comes after the removal by a timer or the drain. */
  predicate Harmless(s: State, step: Step) {
    match step
    case Request(t) => !Waiting(s, t)
    case Fire(t) => true
    case FireTaken(t) => false
    case Return(d) => d in s.calling ==> !Waiting(s, s.calling[d])
    case Reap(t) => t in s.pending ==> Waiting(s, t)
    case Drain => forall t :: t in s.pending ==> Waiting(s, t)
    case Deliver(t) => true
  }

  lemma HarmlessEntry(s: State, step: Step, t: Tag)
    requires Formed(s) && AccountedFor(s, t) && Enabled(LOOSE, s, step) && Harmless(s, step)
    requires step.Request? || step.Fire? || step.Return?
    ensures AccountedFor(Apply(s, step), t)
  {
  }

  lemma HarmlessTimeout(s: State, step: Step, t: Tag)
    requires Formed(s) && AccountedFor(s, t) && Enabled(LOOSE, s, step) && Harmless(s, step)
    requires step.Reap? || step.Deliver?
    ensures AccountedFor(Apply(s, step), t)
  {
  }

  lemma HarmlessDrain(s: State, t: Tag)
    requires AccountedFor(s, t) && Harmless(s, Drain)
    ensures AccountedFor(Apply(s, Drain), t)
  {
  }

  /** The tag whose account an unharmless step upsets. */
  lemma HarmfulFor(s: State, step: Step) returns (t: Tag)
    requires Formed(s) && Accounted(s) && Enabled(LOOSE, s, step) && !Harmless(s, step)
    ensures !AccountedFor(Apply(s, step), t)
  {
    match step {
      case Request(u) => t := u;
      case FireTaken(u) => t := u;
      case Return(d) => t := s.calling[d];
      case Reap(u) => t := u;
      case Drain => t :| t in s.pending && !Waiting(s, t);
    }
    assert AccountedFor(s, t);
  }

  lemma StepAccountedIff(s: State, step: Step)
    requires Formed(s) && Accounted(s) && Enabled(LOOSE, s, step)
    ensures Accounted(Apply(s, step)) <==> Harmless(s, step)
  {
    if Harmless(s, step) {
      forall t ensures AccountedFor(Apply(s, step), t) {
        if step.Drain? {
          HarmlessDrain(s, t);
        } else if step.Reap? || step.Deliver? {
          HarmlessTimeout(s, step, t);
        } else {
          HarmlessEntry(s, step, t);
        }
      }
    } else {
      var t := HarmfulFor(s, step);
    }
  }

  ghost predicate AccountedThroughout(s: State, steps: seq<Step>)
    decreases |steps|
  {
    Accounted(s) && (steps == [] || AccountedThroughout(Apply(s, steps[0]), steps[1..]))
  }

  predicate AllHarmless(s: State, steps: seq<Step>)
    decreases |steps|
  {
    steps == [] || (Harmless(s, steps[0]) && AllHarmless(Apply(s, steps[0]), steps[1..]))
  }

  /** Run by run: one signal per request at every point, exactly when every step is
      harmless. */
  lemma {:induction false} AccountedThroughoutIff(s: State, steps: seq<Step>)
    requires Formed(s) && Accounted(s) && ValidRun(LOOSE, s, steps)
    ensures AccountedThroughout(s, steps) <==> AllHarmless(s, steps)
    decreases |steps|
  {
    if steps != [] {
      FormedStep(s, steps[0]);
      StepAccountedIff(s, steps[0]);
      if Harmless(s, steps[0]) {
        AccountedThroughoutIff(Apply(s, steps[0]), steps[1..]);
      }
    }
  }

  /** One signal per request in every run of a driver comes down to the driver's two
      disciplines. */
  lemma DisciplineDecides(d: Discipline)
    ensures d == SOUND <==> forall steps :: ValidRun(d, INITIAL, steps) ==> Accounted(Run(INITIAL, steps))
  {
    if d == SOUND {
      forall steps | ValidRun(d, INITIAL, steps) ensures Accounted(Run(INITIAL, steps)) {
        RunInv(INITIAL, steps);
      }
    } else if !d.serial {
      var steps := CallbackRacesTimer(d.unshared);
      assert !AccountedFor(Run(INITIAL, steps), 0);
    } else {
      var steps := SharedTagIsLost(d.serial);
    }
  }

  // ----------------------------------------------------------------------- the class

  function Deliveries(order: seq<Tag>): seq<Step> {
    seq(|order|, i requires 0 <= i < |order| => Deliver(order[i]))
  }

  lemma {:induction false} RunSnoc(s: State, steps: seq<Step>, step: Step)
    ensures Run(s, steps + [step]) == Apply(Run(s, steps), step)
    decreases |steps|
  {
    if steps == [] {
      assert steps + [step] == [step] && [step][1..] == [];
    } else {
      assert (steps + [step])[1..] == steps[1..] + [step];
      RunSnoc(Apply(s, steps[0]), steps[1..], step);
    }
  }

  lemma DeliverLast(s: State, order: seq<Tag>, t: Tag)
    ensures Run(s, Deliveries(order + [t])) == Apply(Run(s, Deliveries(order)), Deliver(t))
  {
    RunSnoc(s, Deliveries(order), Deliver(t));
    DeliveriesSnoc(order, t);
  }

  lemma DeliveriesSnoc(order: seq<Tag>, t: Tag)
    ensures Deliveries(order + [t]) == Deliveries(order) + [Deliver(t)]
  {
  }

  /** One turn of the loop that signals the tags in `left`. */
  lemma DeliverNext(start: State, order: seq<Tag>, now: State, left: set<Tag>, t: Tag)
    requires t in left && Run(start, Deliveries(order)) == now.(taken := now.taken + multiset(left))
    ensures Run(start, Deliveries(order + [t])) == Signal(now, t).(taken := now.taken + multiset(left - {t}))
  {
    var before := now.(taken := now.taken + multiset(left));
    DeliverLast(start, order, t);
    DeliverOne(now, left, t);
    assert Run(start, Deliveries(order + [t])) == Apply(before, Deliver(t));
  }

  lemma DeliverOne(now: State, left: set<Tag>, t: Tag)
    requires t in left
    ensures
      Apply(now.(taken := now.taken + multiset(left)), Deliver(t)) ==
      Signal(now, t).(taken := now.taken + multiset(left - {t}))
  {
    TakeOne(left - {t}, t);
    assert left - {t} + {t} == left;
    LessOne(now.taken, multiset(left - {t}), t);
  }

  /** A timer's removal and its signal together. */
  lemma ReapDelivered(s: State, t: Tag)
    requires t in s.pending
    ensures
      Apply(Apply(s, Reap(t)), Deliver(t)) ==
      Signal(s, t).(pending := s.pending - {t}, reapers := Drop(s.reapers, t))
  {
    LessOne(s.taken, multiset{}, t);
  }

  lemma LessOne(a: multiset<Tag>, b: multiset<Tag>, t: Tag)
    ensures a + (b + multiset{t}) - multiset{t} == a + b
  {
  }

  lemma ListNext(tags: set<Tag>, left: set<Tag>, order: seq<Tag>, t: Tag)
    requires t in left && left <= tags && multiset(order) == multiset(tags - left)
    ensures multiset(order + [t]) == multiset(tags - (left - {t}))
  {
    TakeOne(tags - left, t);
    assert tags - (left - {t}) == tags - left + {t};
  }

  lemma TakeOne(ts: set<Tag>, t: Tag)
    requires t !in ts
    ensures multiset(ts + {t}) == multiset(ts) + multiset{t}
  {
  }

  class SecurityKeyBroker {
    var pending: map<Tag, nat>
    var signals: map<Tag, nat>
    ghost var calling: map<nat, Tag>
    ghost var taken: multiset<Tag>
    ghost var reapers: map<Tag, nat>
    ghost var requests: map<Tag, nat>
    var next: nat

    ghost function Model(): State
      reads this
    {
      State(pending, calling, taken, reapers, signals, requests, next)
    }

    constructor ()
      ensures Model() == INITIAL
    {
      pending, signals, next := map[], map[], 0;
      calling, taken, reapers, requests := map[], multiset{}, map[], map[];
    }

    /** `retain`, with the timer it schedules. */
    method Retain(tag: Tag)
      modifies this
      ensures Model() == Apply(old(Model()), Request(tag))
    {
      pending := pending[tag := next];
      next := next + 1;
      reapers := Bump(reapers, tag);
      requests := Bump(requests, tag);
    }

    method SignalOnce(tag: Tag)
      modifies this`signals
      ensures signals == Bump(old(signals), tag)
    {
      signals := signals[tag := (if tag in signals then signals[tag] else 0) + 1];
    }

    /** Either delegate callback, up to its `cleanup`. */
    method DidComplete(tag: Tag)
      requires tag in pending
      modifies this
      ensures Model() == Apply(old(Model()), Fire(tag))
    {
      calling := calling[pending[tag] := tag];
      SignalOnce(tag);
    }

    /** `drop`, from the delegate's `cleanup`. */
    method DropTag(tag: Tag, ghost delegate: nat)
      requires delegate in calling && calling[delegate] == tag
      modifies this
      ensures Model() == Apply(old(Model()), Return(delegate))
    {
      pending := pending - {tag};
      calling := calling - {delegate};
    }

    /** `reapIfStillPending`. */
    method ReapIfStillPending(tag: Tag)
      modifies this
      ensures
        var reaped := Apply(old(Model()), Reap(tag));
        Model() == if tag in old(pending) then Apply(reaped, Deliver(tag)) else reaped
    {
      var found := tag in pending;
      reapers := Drop(reapers, tag);
      if found {
        ReapDelivered(old(Model()), tag);
        pending := pending - {tag};
        SignalOnce(tag);
      }
    }

    /** The loop of `drainAllAsTimeout`. */
    method SignalEach(tags: set<Tag>) returns (ghost order: seq<Tag>)
      modifies this`signals
      ensures multiset(order) == multiset(tags)
      ensures Model() == Run(old(Model()).(taken := taken + multiset(tags)), Deliveries(order))
    {
      var left := tags;
      order := [];
      ghost var start := Model().(taken := taken + multiset(tags));
      while left != {}
        invariant left <= tags && multiset(order) == multiset(tags - left)
        invariant Run(start, Deliveries(order)) == Model().(taken := taken + multiset(left))
        decreases left
      {
        var tag :| tag in left;
        DeliverNext(start, order, Model(), left, tag);
        ListNext(tags, left, order, tag);
        SignalOnce(tag);
        left, order := left - {tag}, order + [tag];
      }
      assert tags - {} == tags;
    }

    /** `drainAllAsTimeout`: the removal, and then a signal for each tag, in some order. */
    method DrainAllAsTimeout() returns (ghost order: seq<Tag>)
      modifies this
      ensures multiset(order) == multiset(old(pending).Keys)
      ensures Model() == Run(Apply(old(Model()), Drain), Deliveries(order))
    {
      var drained := pending.Keys;
      pending := map[];
      order := SignalEach(drained);
    }
  }
}
