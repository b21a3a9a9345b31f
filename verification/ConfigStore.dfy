/**
 The debounced config store of config_store.rs.  A mutex section is one step; `flush`
 takes the config in one section and writes it outside the mutex, so a run is any
 interleaving of updates and flushes.  A write puts the whole file in place or fails.
*/
module ConfigStore {
  import opened Wrappers

  /** A config, as far as the store looks into it: opaque slices and the security slice. */
  datatype Security = Security(tier: nat, modifiers: nat)
  datatype AppConfig = AppConfig(security: Option<Security>, sync: nat, probeCache: nat, rest: nat)

  const DEFAULT := AppConfig(None, 0, 0, 0)
  const NO_MODIFIERS := 0
  const DEBOUNCE_MS := 300

  type Dir = nat

  /** A `config.json` that exists. */
  datatype File = Unreadable | Garbage | Holds(config: AppConfig)

  datatype Write = Write(dir: Dir, config: AppConfig)

  /** `writes` are the flushes between their mutex section and the end of their write. */
  datatype State = State(
    path: Option<Dir>,
    current: Option<AppConfig>,
    pending: Option<AppConfig>,
    deadline: Option<int>,
    loaded: bool,
    disk: map<Dir, File>,
    writes: seq<Write>)

  function Initial(disk: map<Dir, File>): State {
    State(None, None, None, None, false, disk, [])
  }

  datatype Step =
    | Init(dir: Dir)
    | Update(config: AppConfig, now: int)
    | Take
    | Finish(i: nat, ok: bool)

  function Loaded(disk: map<Dir, File>, dir: Dir): AppConfig {
    if dir in disk && disk[dir].Holds? then disk[dir].config else DEFAULT
  }

  predicate Fails(disk: map<Dir, File>, dir: Dir) {
    dir in disk && disk[dir].Garbage?
  }

  function Apply(s: State, step: Step): State {
    match step
    case Init(dir) =>
      if Fails(s.disk, dir) then s
      else s.(path := Some(dir), current := Some(Loaded(s.disk, dir)), pending := None, deadline := None,
              loaded := dir in s.disk && s.disk[dir].Holds?)
    case Update(config, now) =>
      if s.path.None? then s
      else s.(current := Some(config), pending := Some(config), deadline := Some(now + DEBOUNCE_MS))
    case Take =>
      if s.path.None? then s
      else
        var config := if s.pending.Some? then s.pending else s.current;
        var t := s.(pending := None, deadline := None);
        if config.None? then t else t.(writes := s.writes + [Write(s.path.value, config.value)])
    case Finish(i, ok) =>
      if i >= |s.writes| then s
      else
        var w := s.writes[i];
        var t := s.(writes := s.writes[..i] + s.writes[i + 1..]);
        if ok then t.(disk := s.disk[w.dir := Holds(w.config)]) else t
  }

  /** What a caller may rely on: flushes one at a time, writes that succeed, and no `init`
      while something is pending or being written. */
  datatype Discipline = Discipline(exclusive: bool, reliable: bool, calm: bool)

  predicate Enabled(d: Discipline, s: State, step: Step) {
    match step
    case Init(dir) => d.calm ==> s.pending == None && s.writes == []
    case Update(config, now) => true
    case Take => d.exclusive ==> s.writes == []
    case Finish(i, ok) => i < |s.writes| && (d.reliable ==> ok)
  }

  predicate ValidRun(d: Discipline, s: State, steps: seq<Step>)
    decreases |steps|
  {
    steps == [] || (Enabled(d, s, steps[0]) && ValidRun(d, Apply(s, steps[0]), steps[1..]))
  }

  function Run(s: State, steps: seq<Step>): State
    decreases |steps|
  {
    if steps == [] then s else Run(Apply(s, steps[0]), steps[1..])
  }

  // ------------------------------------------------- the shape, under any discipline

  /** A pending config exists exactly when a deadline does, and then it is the current
      one; there is a current config exactly after an `init`. */
  predicate Shape(s: State) {
    && (s.pending.Some? <==> s.deadline.Some?)
    && (s.pending.Some? ==> s.pending == s.current)
    && (s.path.Some? <==> s.current.Some?)
  }

  lemma {:induction false} RunShape(d: Discipline, s: State, steps: seq<Step>)
    requires Shape(s) && ValidRun(d, s, steps)
    ensures Shape(Run(s, steps))
    decreases |steps|
  {
    if steps != [] {
      RunShape(d, Apply(s, steps[0]), steps[1..]);
    }
  }

  // -------------------------------------------------------- the write-through store

  /** The same calls on a store that writes at once. */
  datatype Through = Through(path: Option<Dir>, current: Option<AppConfig>, disk: map<Dir, File>)

  function ApplyThrough(w: Through, step: Step): Through {
    match step
    case Init(dir) => if Fails(w.disk, dir) then w else w.(path := Some(dir), current := Some(Loaded(w.disk, dir)))
    case Update(config, now) =>
      if w.path.None? then w else w.(current := Some(config), disk := w.disk[w.path.value := Holds(config)])
    case Take =>
      if w.path.None? || w.current.None? then w else w.(disk := w.disk[w.path.value := Holds(w.current.value)])
    case Finish(i, ok) => w
  }

  function RunThrough(w: Through, steps: seq<Step>): Through
    decreases |steps|
  {
    if steps == [] then w else RunThrough(ApplyThrough(w, steps[0]), steps[1..])
  }

  predicate Resting(s: State) {
    s.pending == None && s.writes == []
  }

  /** The disk once everything pending or taken has been written. */
  function Settled(s: State): map<Dir, File> {
    if Resting(s) || s.path.None? || s.current.None? then s.disk else s.disk[s.path.value := Holds(s.current.value)]
  }

  /** The debounced store refines the write-through store. */
  predicate Refines(s: State, w: Through) {
    s.path == w.path && s.current == w.current && Settled(s) == w.disk
  }

  /** At most one write is under way; it goes to the store's file, and it carries the
      current config unless a newer one is pending. */
  predicate OneWrite(s: State) {
    && |s.writes| <= 1
    && (s.writes != [] ==> s.path == Some(s.writes[0].dir))
    && (s.writes != [] && s.pending == None ==> s.current == Some(s.writes[0].config))
  }

  const SOUND := Discipline(true, true, true)

  lemma StepOneWrite(s: State, step: Step)
    requires Shape(s) && OneWrite(s) && Enabled(SOUND, s, step)
    ensures OneWrite(Apply(s, step))
  {
  }

  lemma StepRefines(s: State, w: Through, step: Step)
    requires Shape(s) && OneWrite(s) && Refines(s, w) && Enabled(SOUND, s, step)
    ensures Refines(Apply(s, step), ApplyThrough(w, step))
  {
    if step.Finish? {
      var write := s.writes[0];
      assert s.writes[..0] + s.writes[1..] == [];
      assert s.disk[write.dir := Holds(write.config)][write.dir := Holds(s.current.value)] ==
             s.disk[write.dir := Holds(s.current.value)];
    }
  }

  lemma {:induction false} RunRefines(s: State, w: Through, steps: seq<Step>)
    requires Shape(s) && OneWrite(s) && Refines(s, w) && ValidRun(SOUND, s, steps)
    ensures Refines(Run(s, steps), RunThrough(w, steps)) && OneWrite(Run(s, steps))
    decreases |steps|
  {
    if steps != [] {
      StepOneWrite(s, steps[0]);
      StepRefines(s, w, steps[0]);
      RunRefines(Apply(s, steps[0]), ApplyThrough(w, steps[0]), steps[1..]);
    }
  }

  /** At rest the disk is that of the write-through store. */
  predicate AgreesAtRest(disk: map<Dir, File>, steps: seq<Step>) {
    var s := Run(Initial(disk), steps);
    Resting(s) ==> s.disk == RunThrough(Through(None, None, disk), steps).disk
  }

  lemma AtRestAgrees(disk: map<Dir, File>, steps: seq<Step>)
    requires ValidRun(SOUND, Initial(disk), steps)
    ensures AgreesAtRest(disk, steps)
  {
    RunRefines(Initial(disk), Through(None, None, disk), steps);
  }

  lemma {:induction false} FlushedStaysWritten(w: Through, steps: seq<Step>)
    requires Written(w.path, w.current, w.disk)
    requires forall i :: 0 <= i < |steps| ==> !steps[i].Init?
    ensures var t := RunThrough(w, steps); t.path == w.path && Written(t.path, t.current, t.disk)
    decreases |steps|
  {
    if steps != [] {
      FlushedStaysWritten(ApplyThrough(w, steps[0]), steps[1..]);
    }
  }

  lemma {:induction false} RunConcat(d: Discipline, s: State, w: Through, a: seq<Step>, b: seq<Step>)
    ensures Run(s, a + b) == Run(Run(s, a), b) && RunThrough(w, a + b) == RunThrough(RunThrough(w, a), b)
    ensures ValidRun(d, s, a + b) <==> ValidRun(d, s, a) && ValidRun(d, Run(s, a), b)
    decreases |a|
  {
    if a == [] {
      assert a + b == b;
    } else {
      assert (a + b)[1..] == a[1..] + b;
      RunConcat(d, Apply(s, a[0]), ApplyThrough(w, a[0]), a[1..], b);
    }
  }

  predicate Written(path: Option<Dir>, current: Option<AppConfig>, disk: map<Dir, File>) {
    path.Some? && current.Some? && path.value in disk && disk[path.value] == Holds(current.value)
  }

  lemma ThroughFlush(s: State, w: Through, before: seq<Step>, after: seq<Step>)
    requires RunThrough(w, before).path.Some? && RunThrough(w, before).current.Some?
    requires forall i :: 0 <= i < |after| ==> !after[i].Init?
    ensures
      var t := RunThrough(w, before + [Take] + after);
      Written(t.path, t.current, t.disk)
  {
    var middle := RunThrough(w, before);
    RunConcat(SOUND, s, w, before + [Take], after);
    RunConcat(SOUND, s, w, before, [Take]);
    assert RunThrough(middle, [Take]) == RunThrough(ApplyThrough(middle, Take), []);
    FlushedStaysWritten(ApplyThrough(middle, Take), after);
  }

  /** After a flush has been taken and until the next `init`, the disk at rest holds the
      current config, whatever updates and flushes come in between. */
  lemma FlushMakesDurable(disk: map<Dir, File>, before: seq<Step>, after: seq<Step>)
    requires ValidRun(SOUND, Initial(disk), before + [Take] + after)
    requires Run(Initial(disk), before).path.Some? && forall i :: 0 <= i < |after| ==> !after[i].Init?
    ensures
      var s := Run(Initial(disk), before + [Take] + after);
      Resting(s) ==> Written(s.path, s.current, s.disk)
  {
    var s0, w0 := Initial(disk), Through(None, None, disk);
    RunConcat(SOUND, s0, w0, before, [Take] + after);
    assert before + ([Take] + after) == before + [Take] + after;
    RunShape(SOUND, s0, before);
    RunRefines(s0, w0, before);
    RunRefines(s0, w0, before + [Take] + after);
    ThroughFlush(s0, w0, before, after);
  }

  // ---------------------------------------------------------------- counterexamples

  lemma Next(d: Discipline, s: State, w: Through, steps: seq<Step>)
    requires steps != [] && Enabled(d, s, steps[0])
    ensures Run(s, steps) == Run(Apply(s, steps[0]), steps[1..])
    ensures RunThrough(w, steps) == RunThrough(ApplyThrough(w, steps[0]), steps[1..])
    ensures ValidRun(d, s, steps) <==> ValidRun(d, Apply(s, steps[0]), steps[1..])
  {
  }

  const A := DEFAULT.(rest := 1)
  const B := DEFAULT.(rest := 2)

  /** A write that fails has already been taken out of `pending`. */
  lemma FailedWriteIsLost(d: Discipline) returns (steps: seq<Step>)
    requires !d.reliable
    ensures ValidRun(d, Initial(map[]), steps) && !AgreesAtRest(map[], steps)
  {
    var s0, w0 := Initial(map[]), Through(None, None, map[]);
    steps := [Init(0), Update(A, 0), Take, Finish(0, false)];
    var s1, w1 := Apply(s0, Init(0)), ApplyThrough(w0, Init(0));
    var s2, w2 := Apply(s1, Update(A, 0)), ApplyThrough(w1, Update(A, 0));
    var s3, w3 := Apply(s2, Take), ApplyThrough(w2, Take);
    Next(d, s0, w0, steps);
    Next(d, s1, w1, steps[1..]);
    Next(d, s2, w2, steps[2..]);
    Next(d, s3, w3, steps[3..]);
  }

  /** `init` drops what is pending. */
  lemma InitDropsPending(d: Discipline) returns (steps: seq<Step>)
    requires !d.calm
    ensures ValidRun(d, Initial(map[]), steps) && !AgreesAtRest(map[], steps)
  {
    var s0, w0 := Initial(map[]), Through(None, None, map[]);
    steps := [Init(0), Update(A, 0), Init(1)];
    var s1, w1 := Apply(s0, Init(0)), ApplyThrough(w0, Init(0));
    var s2, w2 := Apply(s1, Update(A, 0)), ApplyThrough(w1, Update(A, 0));
    Next(d, s0, w0, steps);
    Next(d, s1, w1, steps[1..]);
    Next(d, s2, w2, steps[2..]);
  }

  /** Of two flushes under way, the older config can be written last. */
  lemma ConcurrentFlushesReorder(d: Discipline) returns (steps: seq<Step>)
    requires !d.exclusive
    ensures ValidRun(d, Initial(map[]), steps) && !AgreesAtRest(map[], steps)
  {
    var s0, w0 := Initial(map[]), Through(None, None, map[]);
    steps := [Init(0), Update(A, 0), Take, Update(B, 0), Take, Finish(1, true), Finish(0, true)];
    var s1, w1 := Apply(s0, Init(0)), ApplyThrough(w0, Init(0));
    var s2, w2 := Apply(s1, Update(A, 0)), ApplyThrough(w1, Update(A, 0));
    var s3, w3 := Apply(s2, Take), ApplyThrough(w2, Take);
    var s4, w4 := Apply(s3, Update(B, 0)), ApplyThrough(w3, Update(B, 0));
    var s5, w5 := Apply(s4, Take), ApplyThrough(w4, Take);
    var s6 := Apply(s5, Finish(1, true));
    assert s5 == State(Some(0), Some(B), None, None, false, map[], [Write(0, A), Write(0, B)]);
    assert s6 == State(Some(0), Some(B), None, None, false, map[0 := Holds(B)], [Write(0, A)]);
    Next(d, s0, w0, steps);
    Next(d, s1, w1, steps[1..]);
    Next(d, s2, w2, steps[2..]);
    Next(d, s3, w3, steps[3..]);
    Next(d, s4, w4, steps[4..]);
    Next(d, s5, w5, steps[5..]);
    Next(d, s6, w5, steps[6..]);
  }

  /** Agreement at rest in every run of a driver comes down to the driver's discipline. */
  lemma DisciplineDecides(d: Discipline)
    ensures d == SOUND <==> forall disk, steps :: ValidRun(d, Initial(disk), steps) ==> AgreesAtRest(disk, steps)
  {
    if d == SOUND {
      forall disk, steps | ValidRun(d, Initial(disk), steps) ensures AgreesAtRest(disk, steps) {
        AtRestAgrees(disk, steps);
      }
    } else if !d.reliable {
      var steps := FailedWriteIsLost(d);
    } else if !d.calm {
      var steps := InitDropsPending(d);
    } else {
      var steps := ConcurrentFlushesReorder(d);
    }
  }

  // ------------------------------------------------------------- run by run, exactly

  const LOOSE := Discipline(false, false, false)

  /** Any interleaving, except that no `init` comes while a write is under way. */
  predicate Allowed(s: State, step: Step) {
    Enabled(LOOSE, s, step) && (step.Init? ==> s.writes == [])
  }

  predicate AllAllowed(s: State, steps: seq<Step>)
    decreases |steps|
  {
    steps == [] || (Allowed(s, steps[0]) && AllAllowed(Apply(s, steps[0]), steps[1..]))
  }

  /** Every write under way goes to the store's file. */
  ghost predicate WritesHere(s: State) {
    forall i :: 0 <= i < |s.writes| ==> s.path == Some(s.writes[i].dir)
  }

  lemma WritesHereStep(s: State, step: Step)
    requires Shape(s) && WritesHere(s) && Allowed(s, step)
    ensures Shape(Apply(s, step)) && WritesHere(Apply(s, step))
  {
  }

  /** A write may end wrongly only while something newer is pending or under way: the last
      one has to bring the current config, or to fail over a file that has it already.
      And an `init` that takes effect may drop only what the file has already. */
  predicate EndsWell(s: State, step: Step) {
    match step
    case Finish(i, ok) =>
      i < |s.writes| && s.pending.None? && |s.writes| == 1 ==>
        if ok then s.current == Some(s.writes[i].config) else Written(s.path, s.current, s.disk)
    case Init(dir) => !Fails(s.disk, dir) && s.pending.Some? ==> Written(s.path, s.current, s.disk)
    case _ => true
  }

  lemma FinishRefines(s: State, w: Through, step: Step)
    requires Shape(s) && WritesHere(s) && Refines(s, w) && Allowed(s, step) && step.Finish? && EndsWell(s, step)
    ensures Refines(Apply(s, step), ApplyThrough(w, step))
  {
    var write := s.writes[step.i];
    assert s.path == Some(write.dir);
    assert s.disk[write.dir := Holds(write.config)][write.dir := Holds(s.current.value)] ==
           s.disk[write.dir := Holds(s.current.value)];
  }

  lemma OtherRefines(s: State, w: Through, step: Step)
    requires Shape(s) && Refines(s, w) && Allowed(s, step) && !step.Finish? && EndsWell(s, step)
    ensures Refines(Apply(s, step), ApplyThrough(w, step))
  {
    if step.Init? && s.pending.Some? && Written(s.path, s.current, s.disk) {
      assert s.disk[s.path.value := Holds(s.current.value)] == s.disk;
    }
  }

  lemma BadEndDisagrees(s: State, w: Through, step: Step)
    requires Shape(s) && WritesHere(s) && Refines(s, w) && Allowed(s, step) && !EndsWell(s, step)
    ensures Resting(Apply(s, step)) && Apply(s, step).disk != ApplyThrough(w, step).disk
  {
    assert step.Finish? ==> s.path == Some(s.writes[0].dir);
    assert w.disk[s.path.value] == Holds(s.current.value);
  }

  ghost predicate AgreesThroughout(s: State, w: Through, steps: seq<Step>)
    decreases |steps|
  {
    && (Resting(s) ==> s.disk == w.disk)
    && (steps == [] || AgreesThroughout(Apply(s, steps[0]), ApplyThrough(w, steps[0]), steps[1..]))
  }

  predicate AllEndWell(s: State, steps: seq<Step>)
    decreases |steps|
  {
    steps == [] || (EndsWell(s, steps[0]) && AllEndWell(Apply(s, steps[0]), steps[1..]))
  }

  /** Run by run, with any number of flushes under way, writes that may fail and `init` over
      pending work: the disk is that of the write-through store whenever the store is at
      rest, exactly when every write ends well and no `init` drops an unwritten config. */
  lemma {:induction false} AgreesThroughoutIff(s: State, w: Through, steps: seq<Step>)
    requires Shape(s) && WritesHere(s) && Refines(s, w) && AllAllowed(s, steps)
    ensures AgreesThroughout(s, w, steps) <==> AllEndWell(s, steps)
    decreases |steps|
  {
    if steps != [] {
      var step := steps[0];
      WritesHereStep(s, step);
      if !EndsWell(s, step) {
        BadEndDisagrees(s, w, step);
      } else {
        if step.Finish? {
          FinishRefines(s, w, step);
        } else {
          OtherRefines(s, w, step);
        }
        AgreesThroughoutIff(Apply(s, step), ApplyThrough(w, step), steps[1..]);
      }
    }
  }

  // ----------------------------------------------------------------------- the class

  /** The store, with the directory contents it reads and writes. */
  class Store {
    var path: Option<Dir>
    var current: Option<AppConfig>
    var pending: Option<AppConfig>
    var deadline: Option<int>
    var loaded: bool
    var disk: map<Dir, File>
    var events: seq<AppConfig>

    ghost function Model(): State
      reads this
    {
      State(path, current, pending, deadline, loaded, disk, [])
    }

    constructor (files: map<Dir, File>)
      ensures Model() == Initial(files) && events == []
    {
      events := [];
      path, current, pending, deadline, loaded, disk := None, None, None, None, false, files;
    }

    /** `init`. */
    method InitStore(dir: Dir) returns (r: Result<AppConfig>)
      modifies this
      ensures Model() == Apply(old(Model()), Init(dir)) && events == old(events)
      ensures r.Err? <==> Fails(disk, dir)
      ensures r.Ok? ==> Some(r.value) == current
    {
      var was := false;
      var config := DEFAULT;
      if dir in disk {
        match disk[dir]
        case Holds(c) =>
          was := true;
          config := c;
        case Garbage => return Err;
        case Unreadable =>
      }
      path, current, pending, deadline, loaded := Some(dir), Some(config), None, None, was;
      r := Ok(config);
    }

    method Adopt(config: AppConfig, now: int)
      requires path.Some?
      modifies this
      ensures Model() == Apply(old(Model()), Update(config, now)) && events == old(events)
    {
      current, pending, deadline := Some(config), Some(config), Some(now + DEBOUNCE_MS);
    }

    /** `set_json`; `parsed` is what the text parses to. */
    method SetJson(parsed: Option<AppConfig>, now: int) returns (r: Result<()>)
      modifies this
      ensures r.Err? <==> parsed.None? || old(path).None?
      ensures events == old(events)
      ensures Model() == if r.Err? then old(Model()) else Apply(old(Model()), Update(parsed.value, now))
    {
      if parsed.None? || path.None? {
        return Err;
      }
      Adopt(parsed.value, now);
      r := Ok(());
    }

    /** `update_security_tier`: no step when the slice is already the resolved one. */
    method UpdateSecurityTier(tier: nat, now: int) returns (r: Result<()>)
      requires Shape(Model())
      modifies this
      ensures events == old(events)
      ensures r.Err? <==> old(path).None?
      ensures r.Ok? ==>
        var was := old(current).value.security;
        var modifiers := if was.Some? then was.value.modifiers else NO_MODIFIERS;
        var updated := old(current).value.(security := Some(Security(tier, modifiers)));
        && current == Some(updated)
        && Model() == if updated == old(current).value then old(Model()) else Apply(old(Model()), Update(updated, now))
      ensures r.Err? ==> Model() == old(Model())
    {
      if path.None? || current.None? {
        return Err;
      }
      var config := current.value;
      var modifiers := if config.security.Some? then config.security.value.modifiers else NO_MODIFIERS;
      var resolved := Security(tier, modifiers);
      if config.security == Some(resolved) {
        return Ok(());
      }
      Adopt(config.(security := Some(resolved)), now);
      r := Ok(());
    }

    /** `flush` with nothing else under way; `ok` is whether the write succeeds, and
        `audience` whether there is a bus to publish the change on. */
    method Flush(ok: bool, audience: bool) returns (r: Result<Option<AppConfig>>)
      requires Shape(Model())
      modifies this
      ensures Model() == Apply(Apply(old(Model()), Take), Finish(0, ok))
      ensures r.Err? <==> old(path).Some? && !ok
      ensures r.Ok? && old(path).Some? ==> r.value == current && Written(path, current, disk)
      ensures events == old(events) + if r.Ok? && r.value.Some? && audience then [r.value.value] else []
    {
      if path.None? {
        return Ok(None);
      }
      var config := if pending.Some? then pending else current;
      pending, deadline := None, None;
      if config.None? {
        return Ok(None);
      }
      if !ok {
        return Err;
      }
      disk := disk[path.value := Holds(config.value)];
      if audience {
        events := events + [config.value];
      }
      r := Ok(config);
    }

    /** `tick_if_due`. */
    method TickIfDue(now: int, ok: bool, audience: bool) returns (r: Result<bool>)
      requires Shape(Model())
      modifies this
      ensures
        var due := old(deadline).Some? && now >= old(deadline).value;
        && Model() == (if due then Apply(Apply(old(Model()), Take), Finish(0, ok)) else old(Model()))
        && (r.Err? <==> due && !ok) && (r.Ok? ==> r.value == due)
        && events == old(events) + if due && ok && audience then [current.value] else []
    {
      if deadline.Some? && pending.Some? && now >= deadline.value {
        var flushed := Flush(ok, audience);
        if flushed.Err? {
          return Err;
        }
        return Ok(true);
      }
      r := Ok(false);
    }
  }

  // ------------------------------------------------------------ what an update says

  /** An update is pending at once and due 300 milliseconds later; a later one starts the
      time anew. */
  lemma UpdateSays(s: State, config: AppConfig, now: int)
    requires s.path.Some?
    ensures
      var t := Apply(s, Update(config, now));
      && t.current == Some(config) && t.pending == Some(config) && t.deadline == Some(now + 300)
      && t.disk == s.disk && t.path == s.path && t.writes == s.writes
  {
  }

  /** What `init` adopts. */
  lemma InitSays(s: State, dir: Dir)
    ensures
      var t := Apply(s, Init(dir));
      && (dir in s.disk && s.disk[dir] == Garbage ==> t == s)
      && (dir in s.disk && s.disk[dir].Holds? ==> t.current == Some(s.disk[dir].config) && t.loaded)
      && (dir !in s.disk || s.disk[dir] == Unreadable ==> t.current == Some(DEFAULT) && !t.loaded)
      && (t == s || (t.path == Some(dir) && t.pending == None && t.deadline == None)) && t.disk == s.disk
  {
  }
}
