/** What `write_bytes_atomic` promises, in every run of the protocol. */
module AtomicTheorems {
  import opened Wrappers
  import opened AtomicWrite

  /** The destination reads as it did at the start, or as one call's whole payload. */
  ghost predicate Untorn(s0: State, s: State) {
    ReadDest(s) == ReadDest(s0) || exists w :: w in s.writers && ReadDest(s) == Some(s.writers[w].payload)
  }

  /** At every point of every run, crashes included, the destination is whole. */
  lemma NeverTorn(s0: State, steps: seq<Step>)
    requires Init(s0) && ValidRun(true, s0, steps)
    ensures Untorn(s0, Run(true, s0, steps))
  {
    InitInv(s0);
    RunInv(s0, s0, steps);
    var s := Run(true, s0, steps);
    assert Intact(s0, s, Binding(s.dir, Dest));
    if ByCommit(s.commits, Binding(s.dir, Dest), 0) {
      var k :| 0 <= k < |s.commits| && Binding(s.dir, Dest) == Some(s.commits[k].ino);
      assert CommitIntact(s, s.commits[k]);
    }
  }

  /** Once a call has returned Ok after a successful directory sync, whatever crashes
      follow, the destination holds its payload or that of a call renamed later. */
  lemma AckedIsDurable(s0: State, steps: seq<Step>, w: WriterId)
    requires Init(s0) && ValidRun(true, s0, steps)
    requires w in Run(true, s0, steps).writers && Run(true, s0, steps).writers[w].phase.Acked?
    requires Run(true, s0, steps).writers[w].phase.durable
    ensures
      var s := Run(true, s0, steps);
      var at := s.writers[w].phase.at;
      && at < |s.commits| && s.commits[at].writer == w
      && exists k :: at <= k < |s.commits| && s.commits[k].writer in s.writers &&
           ReadDest(s) == Some(s.writers[s.commits[k].writer].payload)
  {
    InitInv(s0);
    RunInv(s0, s0, steps);
    var s := Run(true, s0, steps);
    assert AckOk(s, w);
    assert Binding(s.dir, Dest) in Candidates(s, Dest);
    var k :| s.writers[w].phase.at <= k < |s.commits| && Binding(s.dir, Dest) == Some(s.commits[k].ino);
    assert CommitIntact(s, s.commits[k]);
  }

  /** A step of one call leaves every other running call's temp file alone, and the
      entry it renames or removes is bound to the inode it created itself. */
  lemma OwnTempOnly(s0: State, steps: seq<Step>, step: Step, v: WriterId)
    requires Init(s0) && ValidRun(true, s0, steps) && Enabled(true, Run(true, s0, steps), step) && !step.Crash?
    requires v in Run(true, s0, steps).writers && HoldsTemp(Run(true, s0, steps).writers[v].phase)
    ensures
      var s := Run(true, s0, steps);
      var t := Apply(true, s, step);
      var p := s.writers[v].phase;
      && Binding(s.dir, Tmp(p.suffix)) == Some(p.ino) && p.ino in s.files
      && (step.w != v ==>
            t.writers[v] == s.writers[v] && Binding(t.dir, Tmp(p.suffix)) == Some(p.ino) &&
            p.ino in t.files && t.files[p.ino] == s.files[p.ino])
  {
    InitInv(s0);
    RunInv(s0, s0, steps);
    var s := Run(true, s0, steps);
    assert TempOk(s, v);
    if step.w != v && step.w in s.writers {
      assert Apart(s.writers[v].phase, s.writers[step.w].phase);
      assert HoldsTemp(s.writers[step.w].phase) ==> TempOk(s, step.w);
    }
  }
}
