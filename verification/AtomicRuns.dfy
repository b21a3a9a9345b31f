/** Particular runs of the protocol: one call on its own, two calls that share a temp
    file, and what the exclusive create decides. */
module AtomicRuns {
  import opened Wrappers
  import opened AtomicWrite
  import opened AtomicTheorems

  ghost predicate Reaches(excl: bool, s: State, steps: seq<Step>, t: State) {
    ValidRun(excl, s, steps) && Run(excl, s, steps) == t
  }

  lemma Prepend(excl: bool, s: State, step: Step, u: State, rest: seq<Step>, t: State)
    requires Enabled(excl, s, step) && Apply(excl, s, step) == u && Reaches(excl, u, rest, t)
    ensures Reaches(excl, s, [step] + rest, t)
  {
  }

  lemma {:induction false} Chain(excl: bool, s: State, a: seq<Step>, u: State, b: seq<Step>, t: State)
    requires Reaches(excl, s, a, u) && Reaches(excl, u, b, t)
    ensures Reaches(excl, s, a + b, t)
    decreases |a|
  {
    if a == [] {
      assert a + b == b;
    } else {
      var s1 := Apply(excl, s, a[0]);
      Chain(excl, s1, a[1..], u, b, t);
      Prepend(excl, s, a[0], s1, a[1..] + b, t);
      assert [a[0]] + (a[1..] + b) == a + b;
    }
  }

  lemma TwoSteps(excl: bool, s: State, x: Step, y: Step) returns (t: State)
    requires Enabled(excl, s, x) && Enabled(excl, Apply(excl, s, x), y)
    ensures Reaches(excl, s, [x, y], t) && t == Apply(excl, Apply(excl, s, x), y)
  {
    var u := Apply(excl, s, x);
    t := Apply(excl, u, y);
    assert Reaches(excl, t, [], t);
    Prepend(excl, u, y, t, [], t);
    Prepend(excl, s, x, u, [y] + [], t);
    assert [x] + ([y] + []) == [x, y];
  }

  /** The steps of a call that meets no failure. */
  function SoloCall(w: WriterId, payload: Bytes, suffix: Suffix, ino: Ino): seq<Step> {
    [Begin(w, payload), Open(w, suffix, ino)] + [Write(w, |payload|), SyncData(w, true)] +
    ([Harden(w), Rename(w, true)] + [SyncDir(w, true)])
  }

  lemma SoloOpen(s: State, w: WriterId, payload: Bytes, suffix: Suffix, ino: Ino) returns (t: State)
    requires w !in s.writers && Tmp(suffix) !in s.dir && ino !in s.files
    ensures Reaches(true, s, [Begin(w, payload), Open(w, suffix, ino)], t)
    ensures t == State(s.files[ino := File([], false)], s.dir[Tmp(suffix) := ino], Retire(s, Tmp(suffix)),
                       s.writers[w := Writer(payload, Writing(suffix, ino, 0))], s.commits)
  {
    t := TwoSteps(true, s, Begin(w, payload), Open(w, suffix, ino));
  }

  lemma SoloFlush(excl: bool, s: State, w: WriterId, suffix: Suffix, ino: Ino) returns (t: State)
    requires w in s.writers && s.writers[w].phase == Writing(suffix, ino, 0)
    requires ino in s.files && s.files[ino].data == []
    ensures Reaches(excl, s, [Write(w, |s.writers[w].payload|), SyncData(w, true)], t)
    ensures t == s.(files := s.files[ino := File(s.writers[w].payload, true)],
                    writers := s.writers[w := s.writers[w].(phase := Flushed(suffix, ino))])
  {
    assert WriteAt([], 0, s.writers[w].payload[0..|s.writers[w].payload|]) == s.writers[w].payload;
    t := TwoSteps(excl, s, Write(w, |s.writers[w].payload|), SyncData(w, true));
  }

  lemma SoloRename(s: State, w: WriterId, suffix: Suffix, ino: Ino) returns (t: State)
    requires w in s.writers && s.writers[w].phase == Flushed(suffix, ino)
    requires Tmp(suffix) in s.dir && s.dir[Tmp(suffix)] == ino
    ensures Reaches(true, s, [Harden(w), Rename(w, true)], t)
    ensures t.files == s.files && t.dir == s.dir[Dest := ino] - {Tmp(suffix)}
    ensures t.writers == s.writers[w := s.writers[w].(phase := Committed(|s.commits|))]
  {
    t := TwoSteps(true, s, Harden(w), Rename(w, true));
  }

  lemma SoloSync(s: State, w: WriterId) returns (t: State)
    requires w in s.writers && s.writers[w].phase.Committed?
    ensures Reaches(true, s, [SyncDir(w, true)], t)
    ensures t == s.(stale := map[],
                    writers := s.writers[w := s.writers[w].(phase := Acked(s.writers[w].phase.at, true))])
  {
    t := Apply(true, s, SyncDir(w, true));
    assert Reaches(true, t, [], t);
    Prepend(true, s, SyncDir(w, true), t, [], t);
    assert [SyncDir(w, true)] + [] == [SyncDir(w, true)];
  }

  lemma SoloWrite(s: State, w: WriterId, payload: Bytes, suffix: Suffix, ino: Ino) returns (t: State)
    requires w !in s.writers && Tmp(suffix) !in s.dir && ino !in s.files
    ensures Reaches(true, s, [Begin(w, payload), Open(w, suffix, ino)] + [Write(w, |payload|), SyncData(w, true)], t)
    ensures t.files == s.files[ino := File(payload, true)] && t.dir == s.dir[Tmp(suffix) := ino]
    ensures t.commits == s.commits
    ensures t.writers == s.writers[w := Writer(payload, Flushed(suffix, ino))]
  {
    var u := SoloOpen(s, w, payload, suffix, ino);
    t := SoloFlush(true, u, w, suffix, ino);
    Chain(true, s, [Begin(w, payload), Open(w, suffix, ino)], u, [Write(w, |payload|), SyncData(w, true)], t);
  }

  lemma SoloCommit(s: State, w: WriterId, suffix: Suffix, ino: Ino) returns (t: State)
    requires w in s.writers && s.writers[w].phase == Flushed(suffix, ino)
    requires Tmp(suffix) in s.dir && s.dir[Tmp(suffix)] == ino
    ensures Reaches(true, s, [Harden(w), Rename(w, true)] + [SyncDir(w, true)], t)
    ensures t.files == s.files && t.dir == s.dir[Dest := ino] - {Tmp(suffix)} && t.stale == map[]
    ensures t.writers == s.writers[w := s.writers[w].(phase := Acked(|s.commits|, true))]
  {
    var u := SoloRename(s, w, suffix, ino);
    t := SoloSync(u, w);
    Chain(true, s, [Harden(w), Rename(w, true)], u, [SyncDir(w, true)], t);
  }

  /** From any state, a call that finds its suffix free and meets no failure returns
      Ok with its payload in the destination and no temp file left. */
  lemma SoloCallCommits(s: State, w: WriterId, payload: Bytes, suffix: Suffix, ino: Ino) returns (t: State)
    requires w !in s.writers && Tmp(suffix) !in s.dir && ino !in s.files
    ensures Reaches(true, s, SoloCall(w, payload, suffix, ino), t)
    ensures ReadDest(t) == Some(payload) && Candidates(t, Dest) == {Some(ino)}
    ensures t.writers == s.writers[w := Writer(payload, Acked(|s.commits|, true))]
    ensures t.dir == s.dir[Dest := ino]
  {
    var u := SoloWrite(s, w, payload, suffix, ino);
    t := SoloCommit(u, w, suffix, ino);
    Chain(true, s, [Begin(w, payload), Open(w, suffix, ino)] + [Write(w, |payload|), SyncData(w, true)], u,
          [Harden(w), Rename(w, true)] + [SyncDir(w, true)], t);
    assert t.dir == s.dir[Dest := ino];
  }

  const EMPTY := State(map[], map[], map[], map[], [])

  /** Without O_EXCL a second call that draws the same suffix truncates the first
      call's flushed temp file, and the first call then renames the empty file. */
  lemma SharedTempTears() returns (steps: seq<Step>)
    ensures ValidRun(false, EMPTY, steps) && !Untorn(EMPTY, Run(false, EMPTY, steps))
  {
    var both := map[0 := Writer([7], Started), 1 := Writer([8], Started)];
    var s1 := TwoSteps(false, EMPTY, Begin(0, [7]), Begin(1, [8]));
    assert s1 == EMPTY.(writers := both);
    var s2 := Apply(false, s1, Open(0, 5, 0));
    var s3 := SoloFlush(false, s2, 0, 5, 0);
    var s4 := SharedTempRename(s3);
    var rest := [Harden(0), Open(1, 5, 0)] + [Rename(0, true)];
    Chain(false, s2, [Write(0, 1), SyncData(0, true)], s3, rest, s4);
    rest := [Write(0, 1), SyncData(0, true)] + rest;
    Prepend(false, s1, Open(0, 5, 0), s2, rest, s4);
    rest := [Open(0, 5, 0)] + rest;
    Chain(false, EMPTY, [Begin(0, [7]), Begin(1, [8])], s1, rest, s4);
    steps := [Begin(0, [7]), Begin(1, [8])] + rest;
    assert ReadDest(EMPTY) == None;
  }

  lemma SharedTempRename(s: State) returns (t: State)
    requires s.writers == map[0 := Writer([7], Flushed(5, 0)), 1 := Writer([8], Started)]
    requires s.files.Keys == {0} && s.dir == map[Tmp(5) := 0]
    ensures Reaches(false, s, [Harden(0), Open(1, 5, 0)] + [Rename(0, true)], t) && ReadDest(t) == Some([])
    ensures t.writers.Keys == {0, 1} && t.writers[0].payload == [7] && t.writers[1].payload == [8]
  {
    var s1 := TwoSteps(false, s, Harden(0), Open(1, 5, 0));
    assert s1.dir == map[Tmp(5) := 0];
    t := Apply(false, s1, Rename(0, true));
    assert Reaches(false, t, [], t);
    Prepend(false, s1, Rename(0, true), t, [], t);
    assert [Rename(0, true)] + [] == [Rename(0, true)];
    Chain(false, s, [Harden(0), Open(1, 5, 0)], s1, [Rename(0, true)], t);
  }

  /** Whole destinations over all runs come down to the exclusive create. */
  lemma ExclusiveCreateDecides(excl: bool)
    ensures
      excl <==>
      forall s0: State, steps :: Init(s0) && ValidRun(excl, s0, steps) ==> Untorn(s0, Run(excl, s0, steps))
  {
    if excl {
      forall s0: State, steps | Init(s0) && ValidRun(excl, s0, steps) ensures Untorn(s0, Run(excl, s0, steps)) {
        NeverTorn(s0, steps);
      }
    } else {
      var steps := SharedTempTears();
    }
  }

  /** Every `Open` of the run finds its name free. */
  ghost predicate OpensFree(s: State, steps: seq<Step>)
    requires ValidRun(false, s, steps)
    decreases |steps|
  {
    steps == [] ||
    ((steps[0].Open? ==> Tmp(steps[0].suffix) !in s.dir) && OpensFree(Apply(false, s, steps[0]), steps[1..]))
  }

  /** Such a run is one of the exclusive create, through the same states. */
  lemma {:induction false} FreeOpensAreExclusive(s: State, steps: seq<Step>)
    requires ValidRun(false, s, steps) && OpensFree(s, steps)
    ensures ValidRun(true, s, steps) && Run(true, s, steps) == Run(false, s, steps)
    decreases |steps|
  {
    if steps != [] {
      FreeOpensAreExclusive(Apply(false, s, steps[0]), steps[1..]);
    }
  }

  /** Run by run, a shared temp name is what it takes: without one, the destination is
      whole even where the create is not exclusive. */
  lemma FreeOpensNeverTear(s0: State, steps: seq<Step>)
    requires Init(s0) && ValidRun(false, s0, steps) && OpensFree(s0, steps)
    ensures Untorn(s0, Run(false, s0, steps))
  {
    FreeOpensAreExclusive(s0, steps);
    NeverTorn(s0, steps);
  }

  /** A call that fails once its temp file exists removes it: after a failed write, a failed
      sync or a failed rename, a successful removal leaves the name free, the destination as
      it was, and the call failed. */
  lemma FailureCleansUp(s: State, w: WriterId, step: Step) returns (t: State)
    requires w in s.writers && Enabled(true, s, step)
    requires step == WriteFails(w) || step == SyncData(w, false) || step == Rename(w, false)
    ensures Reaches(true, s, [step, Remove(w, true)], t)
    ensures t.dir == s.dir - {Tmp(s.writers[w].phase.suffix)} && t.files == s.files && t.commits == s.commits
    ensures t.writers == s.writers[w := s.writers[w].(phase := Failed)]
  {
    t := TwoSteps(true, s, step, Remove(w, true));
  }
}
