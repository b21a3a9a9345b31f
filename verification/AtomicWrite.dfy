/**
 Crash-safe file replacement: `write_bytes_atomic` of path.rs as a step protocol.

 One directory holds a destination and the `<stem>.tmp<suffix>` files of any
 number of concurrent calls.  The filesystem has a volatile view, which running
 calls see, and a durable view, which a crash falls back to:
   - file data that was never `sync_data`ed may come back as anything at all;
   - a directory entry may come back as any binding it had since the last
     directory sync, each name independently of the others.
 Every system call is one step, may fail where the code handles a failure, and a
 crash may come between any two steps.
*/
module AtomicWrite {
  import opened Wrappers

  type Byte = b: int | 0 <= b < 256
  type Bytes = seq<Byte>
  type Ino = nat
  type WriterId = nat
  type Suffix = s: nat | s < 0x1_0000_0000

  datatype Name = Dest | Tmp(suffix: Suffix)

  datatype File = File(data: Bytes, synced: bool)

  /** Where one call stands.  `Committed` and `Acked` carry the index of the
      call's rename among all renames onto the destination. */
  datatype Phase =
    | Started
    | Writing(suffix: Suffix, ino: Ino, done: nat)
    | Flushed(suffix: Suffix, ino: Ino)
    | Hardened(suffix: Suffix, ino: Ino)
    | Removing(suffix: Suffix, ino: Ino)
    | Committed(at: nat)
    | Acked(at: nat, durable: bool)
    | Failed
    | Crashed

  datatype Writer = Writer(payload: Bytes, phase: Phase)

  datatype Commit = Commit(ino: Ino, writer: WriterId)

  /** `stale[n]` are the earlier bindings of `n` that a crash may bring back;
      `commits` is the history of renames onto the destination. */
  datatype State = State(
    files: map<Ino, File>,
    dir: map<Name, Ino>,
    stale: map<Name, set<Option<Ino>>>,
    writers: map<WriterId, Writer>,
    commits: seq<Commit>)

  datatype Step =
    | Begin(w: WriterId, payload: Bytes)
    | Open(w: WriterId, suffix: Suffix, ino: Ino)
    | OpenFails(w: WriterId)
    | Write(w: WriterId, count: nat)
    | WriteFails(w: WriterId)
    | SyncData(w: WriterId, ok: bool)
    | Harden(w: WriterId)
    | Rename(w: WriterId, ok: bool)
    | Remove(w: WriterId, ok: bool)
    | SyncDir(w: WriterId, ok: bool)
    | Crash(dir: map<Name, Ino>, files: map<Ino, File>)

  // ---------------------------------------------------------------- filesystem

  function Binding(dir: map<Name, Ino>, n: Name): Option<Ino> {
    if n in dir then Some(dir[n]) else None
  }

  function Stale(s: State, n: Name): set<Option<Ino>> {
    if n in s.stale then s.stale[n] else {}
  }

  /** What a crash may leave under `n`. */
  function Candidates(s: State, n: Name): set<Option<Ino>> {
    Stale(s, n) + {Binding(s.dir, n)}
  }

  function Retire(s: State, n: Name): map<Name, set<Option<Ino>>> {
    s.stale[n := Candidates(s, n)]
  }

  /** A positional write through a handle whose offset is `off`. */
  function WriteAt(data: Bytes, off: nat, chunk: Bytes): Bytes {
    if off > |data| then data + seq(off - |data|, _ => 0) + chunk
    else data[..off] + chunk + (if off + |chunk| < |data| then data[off + |chunk|..] else [])
  }

  ghost predicate Recovers(s: State, dir: map<Name, Ino>, files: map<Ino, File>) {
    && (forall n: Name :: Binding(dir, n) in Candidates(s, n))
    && files.Keys == s.files.Keys
    && (forall i :: i in files ==> files[i].synced && (s.files[i].synced ==> files[i].data == s.files[i].data))
  }

  /** A call that was running when the machine went down never returns. */
  function Kill(w: Writer): Writer {
    if w.phase.Acked? || w.phase.Failed? then w else w.(phase := Crashed)
  }

  // ------------------------------------------------------------------ protocol

  /** `excl` is whether the temp file is opened with O_EXCL, as it is on Unix. */
  ghost predicate Enabled(excl: bool, s: State, step: Step) {
    match step
    case Begin(w, _) => w !in s.writers
    case Open(w, suffix, ino) =>
      && (w in s.writers && s.writers[w].phase.Started?)
      && if Tmp(suffix) in s.dir then !excl && ino == s.dir[Tmp(suffix)] && ino in s.files else ino !in s.files
    case OpenFails(w) => (w in s.writers && s.writers[w].phase.Started?)
    case Write(w, count) =>
      && (w in s.writers && s.writers[w].phase.Writing?)
      && s.writers[w].phase.ino in s.files
      && s.writers[w].phase.done + count <= |s.writers[w].payload|
    case WriteFails(w) => (w in s.writers && s.writers[w].phase.Writing?)
    case SyncData(w, _) =>
      && (w in s.writers && s.writers[w].phase.Writing?)
      && s.writers[w].phase.ino in s.files
      && s.writers[w].phase.done == |s.writers[w].payload|
    case Harden(w) => (w in s.writers && s.writers[w].phase.Flushed?)
    case Rename(w, ok) =>
      && (w in s.writers && s.writers[w].phase.Hardened?)
      && (ok ==> Tmp(s.writers[w].phase.suffix) in s.dir)
    case Remove(w, _) => (w in s.writers && s.writers[w].phase.Removing?)
    case SyncDir(w, _) => (w in s.writers && s.writers[w].phase.Committed?)
    case Crash(dir, files) => Recovers(s, dir, files)
  }

  function Goto(s: State, w: WriterId, phase: Phase): State
    requires w in s.writers
  {
    s.(writers := s.writers[w := s.writers[w].(phase := phase)])
  }

  ghost function Apply(excl: bool, s: State, step: Step): State
    requires Enabled(excl, s, step)
  {
    match step
    case Begin(w, payload) => s.(writers := s.writers[w := Writer(payload, Started)])
    case Open(w, suffix, ino) =>
      Goto(s.(files := s.files[ino := File([], false)],
              dir := s.dir[Tmp(suffix) := ino],
              stale := Retire(s, Tmp(suffix))),
           w, Writing(suffix, ino, 0))
    case OpenFails(w) => Goto(s, w, Failed)
    case Write(w, count) =>
      var Writing(suffix, ino, done) := s.writers[w].phase;
      var chunk := s.writers[w].payload[done..done + count];
      Goto(s.(files := s.files[ino := File(WriteAt(s.files[ino].data, done, chunk), false)]),
           w, Writing(suffix, ino, done + count))
    case WriteFails(w) => Goto(s, w, Removing(s.writers[w].phase.suffix, s.writers[w].phase.ino))
    case SyncData(w, ok) =>
      var Writing(suffix, ino, _) := s.writers[w].phase;
      if ok then Goto(s.(files := s.files[ino := s.files[ino].(synced := true)]), w, Flushed(suffix, ino))
      else Goto(s, w, Removing(suffix, ino))
    case Harden(w) => Goto(s, w, Hardened(s.writers[w].phase.suffix, s.writers[w].phase.ino))
    case Rename(w, ok) =>
      var Hardened(suffix, ino) := s.writers[w].phase;
      if !ok then Goto(s, w, Removing(suffix, ino))
      else
        var moved := s.dir[Tmp(suffix)];
        Goto(s.(dir := s.dir[Dest := moved] - {Tmp(suffix)},
                stale := Retire(s, Dest)[Tmp(suffix) := Candidates(s, Tmp(suffix))],
                commits := s.commits + [Commit(moved, w)]),
             w, Committed(|s.commits|))
    case Remove(w, ok) =>
      var tmp := Tmp(s.writers[w].phase.suffix);
      Goto(if ok then s.(dir := s.dir - {tmp}, stale := Retire(s, tmp)) else s, w, Failed)
    case SyncDir(w, ok) =>
      Goto(if ok then s.(stale := map[]) else s, w, Acked(s.writers[w].phase.at, ok))
    case Crash(dir, files) =>
      State(files, dir, map[], map w | w in s.writers :: Kill(s.writers[w]), s.commits)
  }

  /** Any filesystem at rest, with leftover temp files allowed and no call running. */
  predicate Init(s: State) {
    && (forall i :: i in s.files ==> s.files[i].synced)
    && (forall n :: n in s.dir ==> s.dir[n] in s.files)
    && s.stale == map[] && s.writers == map[] && s.commits == []
  }

  ghost predicate ValidRun(excl: bool, s: State, steps: seq<Step>)
    decreases |steps|
  {
    steps == [] || (Enabled(excl, s, steps[0]) && ValidRun(excl, Apply(excl, s, steps[0]), steps[1..]))
  }

  ghost function Run(excl: bool, s: State, steps: seq<Step>): State
    requires ValidRun(excl, s, steps)
    decreases |steps|
  {
    if steps == [] then s else Run(excl, Apply(excl, s, steps[0]), steps[1..])
  }

  /** What a reader of the destination gets. */
  function ReadDest(s: State): Option<Bytes> {
    if Dest in s.dir && s.dir[Dest] in s.files then Some(s.files[s.dir[Dest]].data) else None
  }

  // ----------------------------------------------------------------- invariant

  predicate HoldsTemp(p: Phase) {
    p.Writing? || p.Flushed? || p.Hardened? || p.Removing?
  }

  /** `b` is the untouched original or a committed, complete and synced payload. */
  ghost predicate Intact(s0: State, s: State, b: Option<Ino>) {
    || (b == Binding(s0.dir, Dest) &&
        (b.Some? ==> b.value in s0.files && b.value in s.files && s.files[b.value] == s0.files[b.value]))
    || ByCommit(s.commits, b, 0)
  }

  /** `b` is the file of commit `from` or of a later one. */
  predicate ByCommit(commits: seq<Commit>, b: Option<Ino>, from: nat) {
    exists k :: from <= k < |commits| && b == Some(commits[k].ino)
  }

  ghost predicate CommitIntact(s: State, c: Commit) {
    && c.ino in s.files && c.writer in s.writers
    && s.files[c.ino] == File(s.writers[c.writer].payload, true)
  }

  /** The temp file of a running call is bound to the inode that call created, and
      holds what the call has written so far. */
  ghost predicate TempOk(s: State, w: WriterId)
    requires w in s.writers && HoldsTemp(s.writers[w].phase)
  {
    var Writer(payload, phase) := s.writers[w];
    && Tmp(phase.suffix) in s.dir && s.dir[Tmp(phase.suffix)] == phase.ino
    && phase.ino in s.files
    && (phase.Writing? ==> phase.done <= |payload| && s.files[phase.ino].data == payload[..phase.done])
    && (phase.Flushed? || phase.Hardened? ==> s.files[phase.ino] == File(payload, true))
  }

  ghost predicate Private(s0: State, s: State, ino: Ino) {
    && Some(ino) !in Candidates(s, Dest)
    && Some(ino) != Binding(s0.dir, Dest)
    && forall k :: 0 <= k < |s.commits| ==> s.commits[k].ino != ino
  }

  /** A committed call's rename is on record and not undone; an acknowledged and
      directory-synced one is not undone by any crash either. */
  ghost predicate AckOk(s: State, w: WriterId)
    requires w in s.writers
  {
    var p := s.writers[w].phase;
    && (p.Committed? || p.Acked? ==> p.at < |s.commits| && s.commits[p.at].writer == w)
    && (p.Committed? ==> ByCommit(s.commits, Binding(s.dir, Dest), p.at))
    && (p.Acked? && p.durable ==> forall b :: b in Candidates(s, Dest) ==> ByCommit(s.commits, b, p.at))
  }

  predicate Apart(p: Phase, q: Phase) {
    HoldsTemp(p) && HoldsTemp(q) ==> p.suffix != q.suffix && p.ino != q.ino
  }

  /** Every binding a crash may bring back names an existing inode. */
  ghost predicate BindingsOk(s0: State, s: State) {
    && (forall n: Name, b :: b in Candidates(s, n) && b.Some? ==> b.value in s.files)
    && (Dest in s0.dir ==> s0.dir[Dest] in s.files)
  }

  ghost predicate DestOk(s0: State, s: State) {
    forall b :: b in Candidates(s, Dest) ==> Intact(s0, s, b)
  }

  ghost predicate CommitsOk(s: State) {
    forall k :: 0 <= k < |s.commits| ==> CommitIntact(s, s.commits[k])
  }

  ghost predicate TempsOk(s0: State, s: State) {
    && (forall w :: w in s.writers && HoldsTemp(s.writers[w].phase) ==>
          TempOk(s, w) && Private(s0, s, s.writers[w].phase.ino))
    && (forall v, w :: v in s.writers && w in s.writers && v != w ==> Apart(s.writers[v].phase, s.writers[w].phase))
  }

  ghost predicate AcksOk(s: State) {
    forall w :: w in s.writers ==> AckOk(s, w)
  }

  ghost predicate Inv(s0: State, s: State) {
    BindingsOk(s0, s) && DestOk(s0, s) && CommitsOk(s) && TempsOk(s0, s) && AcksOk(s)
  }

  // -------------------------------------------------------------------- proofs

  lemma InitInv(s0: State)
    requires Init(s0)
    ensures Inv(s0, s0)
  {
  }

  lemma BindingsStep(s0: State, s: State, step: Step)
    requires Inv(s0, s) && Enabled(true, s, step)
    ensures BindingsOk(s0, Apply(true, s, step))
  {
    match step {
      case Open(_, _, _) => BindingsOpen(s0, s, step);
      case Rename(_, _) => BindingsRename(s0, s, step);
      case Remove(_, _) => BindingsRemove(s0, s, step);
      case Crash(_, _) => BindingsCrash(s0, s, step);
      case _ => BindingsKept(s0, s, Apply(true, s, step));
    }
  }

  lemma BindingsRemove(s0: State, s: State, step: Step)
    requires BindingsOk(s0, s) && Enabled(true, s, step) && step.Remove?
    ensures BindingsOk(s0, Apply(true, s, step))
  {
    BindingsKept(s0, s, Apply(true, s, step));
  }

  lemma BindingsCrash(s0: State, s: State, step: Step)
    requires BindingsOk(s0, s) && Enabled(true, s, step) && step.Crash?
    ensures BindingsOk(s0, Apply(true, s, step))
  {
    BindingsKept(s0, s, Apply(true, s, step));
  }

  lemma BindingsKept(s0: State, s: State, t: State)
    requires BindingsOk(s0, s) && s.files.Keys <= t.files.Keys
    requires forall n: Name, b :: b in Candidates(t, n) && b.Some? ==> b in Candidates(s, n)
    ensures BindingsOk(s0, t)
  {
  }

  lemma BindingsOpen(s0: State, s: State, step: Step)
    requires BindingsOk(s0, s) && Enabled(true, s, step) && step.Open?
    ensures BindingsOk(s0, Apply(true, s, step))
  {
    var t := Apply(true, s, step);
    forall n: Name, b | b in Candidates(t, n) && b.Some? ensures b.value in t.files {
      assert b in Candidates(s, n) || b == Some(step.ino);
    }
  }

  lemma BindingsRename(s0: State, s: State, step: Step)
    requires BindingsOk(s0, s) && Enabled(true, s, step) && step.Rename?
    ensures BindingsOk(s0, Apply(true, s, step))
  {
    var t := Apply(true, s, step);
    forall n: Name, b | b in Candidates(t, n) && b.Some? ensures b.value in t.files {
      assert b in Candidates(s, n) || b in Candidates(s, Tmp(s.writers[step.w].phase.suffix));
    }
  }

  // What each part of the invariant asks of a step from `s` to `t` that leaves it alone.

  lemma DestFrame(s0: State, s: State, t: State)
    requires DestOk(s0, s) && Candidates(t, Dest) <= Candidates(s, Dest) && t.commits == s.commits
    requires forall b :: b in Candidates(s, Dest) && b.Some? && b.value in s.files ==>
               b.value in t.files && t.files[b.value] == s.files[b.value]
    ensures DestOk(s0, t)
  {
    forall b | b in Candidates(t, Dest) ensures Intact(s0, t, b) {
      assert Intact(s0, s, b);
    }
  }

  lemma CommitsFrame(s: State, t: State)
    requires CommitsOk(s) && t.commits == s.commits
    requires forall k :: 0 <= k < |s.commits| ==>
               s.commits[k].ino in t.files && t.files[s.commits[k].ino] == s.files[s.commits[k].ino]
    requires forall w :: w in s.writers ==> w in t.writers && t.writers[w].payload == s.writers[w].payload
    ensures CommitsOk(t)
  {
    forall k | 0 <= k < |t.commits| ensures CommitIntact(t, t.commits[k]) {
      assert CommitIntact(s, s.commits[k]);
    }
  }

  lemma AcksFrame(s: State, t: State)
    requires AcksOk(s) && t.commits == s.commits && Candidates(t, Dest) <= Candidates(s, Dest)
    requires forall w :: w in t.writers && (t.writers[w].phase.Committed? || t.writers[w].phase.Acked?) ==>
               w in s.writers && t.writers[w].phase == s.writers[w].phase
    requires Binding(t.dir, Dest) == Binding(s.dir, Dest) ||
             forall w :: w in t.writers ==> !t.writers[w].phase.Committed?
    ensures AcksOk(t)
  {
    forall w | w in t.writers ensures AckOk(t, w) {
      assert w in s.writers ==> AckOk(s, w);
    }
  }

  ghost predicate SameTemp(s: State, t: State, w: WriterId)
    requires w in t.writers && HoldsTemp(t.writers[w].phase)
  {
    && w in s.writers && HoldsTemp(s.writers[w].phase)
    && s.writers[w].phase.suffix == t.writers[w].phase.suffix
    && s.writers[w].phase.ino == t.writers[w].phase.ino
  }

  lemma TempsFrame(s0: State, s: State, t: State)
    requires TempsOk(s0, s) && t.commits == s.commits && Candidates(t, Dest) <= Candidates(s, Dest)
    requires forall w :: w in t.writers && HoldsTemp(t.writers[w].phase) ==> SameTemp(s, t, w) && TempOk(t, w)
    ensures TempsOk(s0, t)
  {
    forall w | w in t.writers && HoldsTemp(t.writers[w].phase) ensures Private(s0, t, t.writers[w].phase.ino) {
      assert SameTemp(s, t, w) && Private(s0, s, s.writers[w].phase.ino);
    }
    forall v, w | v in t.writers && w in t.writers && v != w ensures Apart(t.writers[v].phase, t.writers[w].phase) {
      if HoldsTemp(t.writers[v].phase) && HoldsTemp(t.writers[w].phase) {
        assert SameTemp(s, t, v) && SameTemp(s, t, w) && Apart(s.writers[v].phase, s.writers[w].phase);
      }
    }
  }

  /** Steps that only move one call's phase. */
  lemma QuietInv(s0: State, s: State, step: Step)
    requires Init(s0) && Inv(s0, s) && Enabled(true, s, step)
    requires step.Begin? || step.OpenFails? || step.WriteFails? || step.Harden? || (step.Rename? && !step.ok)
    ensures Inv(s0, Apply(true, s, step))
  {
    var t := Apply(true, s, step);
    BindingsStep(s0, s, step);
    DestFrame(s0, s, t);
    assert CommitsOk(t) by { CommitsKept(s, t); }
    AcksFrame(s, t);
    forall w | w in t.writers && HoldsTemp(t.writers[w].phase) ensures SameTemp(s, t, w) && TempOk(t, w) {
      assert TempOk(s, w);
    }
    TempsFrame(s0, s, t);
  }

  lemma CommitsKept(s: State, t: State)
    requires CommitsOk(s) && t.commits == s.commits && t.files == s.files
    requires forall w :: w in s.writers ==> w in t.writers && t.writers[w].payload == s.writers[w].payload
    ensures CommitsOk(t)
  {
    forall k | 0 <= k < |s.commits| ensures s.commits[k].ino in t.files {
      assert CommitIntact(s, s.commits[k]);
    }
    CommitsFrame(s, t);
  }

  lemma ByCommitExtends(commits: seq<Commit>, c: Commit, b: Option<Ino>, from: nat)
    ensures ByCommit(commits, b, from) ==> ByCommit(commits + [c], b, from)
    ensures from <= |commits| ==> ByCommit(commits + [c], Some(c.ino), from)
  {
    if ByCommit(commits, b, from) {
      var k :| from <= k < |commits| && b == Some(commits[k].ino);
      assert (commits + [c])[k] == commits[k];
    }
    assert (commits + [c])[|commits|] == c;
  }

  /** An exclusive create makes a temp file no other call holds. */
  lemma OpenTemps(s0: State, s: State, step: Step)
    requires Init(s0) && Inv(s0, s) && Enabled(true, s, step) && step.Open?
    ensures TempsOk(s0, Apply(true, s, step))
  {
    var t := Apply(true, s, step);
    assert Candidates(t, Dest) == Candidates(s, Dest);
    forall w | w in t.writers && HoldsTemp(t.writers[w].phase)
      ensures TempOk(t, w) && Private(s0, t, t.writers[w].phase.ino)
    {
      if w == step.w {
        forall k | 0 <= k < |t.commits| ensures t.commits[k].ino != step.ino {
          assert CommitIntact(s, s.commits[k]);
        }
      } else {
        assert TempOk(s, w) && Private(s0, s, s.writers[w].phase.ino);
      }
    }
    forall v, w | v in t.writers && w in t.writers && v != w ensures Apart(t.writers[v].phase, t.writers[w].phase) {
      assert v != step.w && HoldsTemp(s.writers[v].phase) ==> TempOk(s, v);
      assert w != step.w && HoldsTemp(s.writers[w].phase) ==> TempOk(s, w);
    }
  }

  lemma OpenInv(s0: State, s: State, step: Step)
    requires Init(s0) && Inv(s0, s) && Enabled(true, s, step) && step.Open?
    ensures Inv(s0, Apply(true, s, step))
  {
    var t := Apply(true, s, step);
    BindingsStep(s0, s, step);
    OpenTemps(s0, s, step);
    DestFrame(s0, s, t);
    forall k | 0 <= k < |s.commits|
      ensures s.commits[k].ino in t.files && t.files[s.commits[k].ino] == s.files[s.commits[k].ino] {
      assert CommitIntact(s, s.commits[k]);
    }
    CommitsFrame(s, t);
    AcksFrame(s, t);
  }

  /** Steps that touch only the data of the call's own temp file. */
  lemma DataInv(s0: State, s: State, step: Step)
    requires Init(s0) && Inv(s0, s) && Enabled(true, s, step) && (step.Write? || step.SyncData?)
    ensures Inv(s0, Apply(true, s, step))
  {
    var t := Apply(true, s, step);
    var ino := s.writers[step.w].phase.ino;
    assert TempOk(s, step.w) && Private(s0, s, ino);
    assert forall i :: i in s.files && i != ino ==> i in t.files && t.files[i] == s.files[i];
    BindingsStep(s0, s, step);
    DestFrame(s0, s, t);
    forall k | 0 <= k < |s.commits|
      ensures s.commits[k].ino in t.files && t.files[s.commits[k].ino] == s.files[s.commits[k].ino] {
      assert CommitIntact(s, s.commits[k]);
    }
    CommitsFrame(s, t);
    AcksFrame(s, t);
    DataTemps(s, t, step);
    TempsFrame(s0, s, t);
  }

  lemma DataTemps(s: State, t: State, step: Step)
    requires Enabled(true, s, step) && (step.Write? || step.SyncData?) && t == Apply(true, s, step)
    requires forall w :: w in s.writers && HoldsTemp(s.writers[w].phase) ==> TempOk(s, w)
    requires forall v, w :: v in s.writers && w in s.writers && v != w ==> Apart(s.writers[v].phase, s.writers[w].phase)
    ensures forall w :: w in t.writers && HoldsTemp(t.writers[w].phase) ==> SameTemp(s, t, w) && TempOk(t, w)
  {
    assert TempOk(s, step.w);
    forall w | w in t.writers && HoldsTemp(t.writers[w].phase) ensures SameTemp(s, t, w) && TempOk(t, w) {
      assert TempOk(s, w);
      assert w != step.w ==> Apart(s.writers[w].phase, s.writers[step.w].phase);
    }
  }

  /** A rename never takes the destination back behind an acknowledged one. */
  lemma RenameAck(s: State, t: State, c: Commit, w: WriterId)
    requires w in t.writers && t.commits == s.commits + [c] && Binding(t.dir, Dest) == Some(c.ino)
    requires Candidates(t, Dest) == Candidates(s, Dest) + {Some(c.ino)}
    requires (w == c.writer && t.writers[w].phase == Committed(|s.commits|)) ||
             (w in s.writers && t.writers[w] == s.writers[w] && AckOk(s, w))
    ensures AckOk(t, w)
  {
    var p := t.writers[w].phase;
    if p.Committed? {
      ByCommitExtends(s.commits, c, Some(c.ino), p.at);
    } else if p.Acked? && p.durable {
      forall b | b in Candidates(t, Dest) ensures ByCommit(t.commits, b, p.at) {
        ByCommitExtends(s.commits, c, b, p.at);
      }
    }
  }

  lemma RenameTemps(s0: State, s: State, step: Step)
    requires Init(s0) && Inv(s0, s) && Enabled(true, s, step) && step.Rename? && step.ok
    ensures TempsOk(s0, Apply(true, s, step))
  {
    var t := Apply(true, s, step);
    assert TempOk(s, step.w);
    forall w | w in t.writers && HoldsTemp(t.writers[w].phase)
      ensures TempOk(t, w) && Private(s0, t, t.writers[w].phase.ino)
    {
      assert w != step.w && TempOk(s, w) && Private(s0, s, s.writers[w].phase.ino);
      assert Apart(s.writers[w].phase, s.writers[step.w].phase);
    }
    forall v, w | v in t.writers && w in t.writers && v != w ensures Apart(t.writers[v].phase, t.writers[w].phase) {
      assert Apart(s.writers[v].phase, s.writers[w].phase);
    }
  }

  lemma RenameInv(s0: State, s: State, step: Step)
    requires Init(s0) && Inv(s0, s) && Enabled(true, s, step) && step.Rename? && step.ok
    ensures Inv(s0, Apply(true, s, step))
  {
    var t := Apply(true, s, step);
    BindingsStep(s0, s, step);
    RenameTemps(s0, s, step);
    assert TempOk(s, step.w);
    var c := Commit(s.dir[Tmp(s.writers[step.w].phase.suffix)], step.w);
    assert t.commits == s.commits + [c];
    assert Candidates(t, Dest) == Candidates(s, Dest) + {Some(c.ino)};
    assert DestOk(s0, t) by {
      forall b | b in Candidates(t, Dest) ensures Intact(s0, t, b) {
        ByCommitExtends(s.commits, c, b, 0);
        assert b != Some(c.ino) ==> Intact(s0, s, b);
      }
    }
    assert AcksOk(t) by {
      forall w | w in t.writers ensures AckOk(t, w) {
        RenameAck(s, t, c, w);
      }
    }
    assert CommitsOk(t) by {
      forall k | 0 <= k < |t.commits| ensures CommitIntact(t, t.commits[k]) {
        assert k < |s.commits| ==> CommitIntact(s, s.commits[k]);
      }
    }
  }

  lemma RemoveInv(s0: State, s: State, step: Step)
    requires Init(s0) && Inv(s0, s) && Enabled(true, s, step) && step.Remove?
    ensures Inv(s0, Apply(true, s, step))
  {
    var t := Apply(true, s, step);
    BindingsStep(s0, s, step);
    DestFrame(s0, s, t);
    CommitsKept(s, t);
    AcksFrame(s, t);
    forall w | w in t.writers && HoldsTemp(t.writers[w].phase) ensures SameTemp(s, t, w) && TempOk(t, w) {
      assert TempOk(s, w) && Apart(s.writers[w].phase, s.writers[step.w].phase);
    }
    TempsFrame(s0, s, t);
  }

  lemma SyncDirInv(s0: State, s: State, step: Step)
    requires Init(s0) && Inv(s0, s) && Enabled(true, s, step) && step.SyncDir?
    ensures Inv(s0, Apply(true, s, step))
  {
    var t := Apply(true, s, step);
    BindingsStep(s0, s, step);
    DestFrame(s0, s, t);
    CommitsKept(s, t);
    SyncDirAcks(s, step);
    forall w | w in t.writers && HoldsTemp(t.writers[w].phase) ensures SameTemp(s, t, w) && TempOk(t, w) {
      assert TempOk(s, w);
    }
    TempsFrame(s0, s, t);
  }

  lemma SyncDirAcks(s: State, step: Step)
    requires AcksOk(s) && Enabled(true, s, step) && step.SyncDir?
    ensures AcksOk(Apply(true, s, step))
  {
    var t := Apply(true, s, step);
    forall w | w in t.writers ensures AckOk(t, w) {
      assert AckOk(s, w);
    }
  }

  lemma CrashInv(s0: State, s: State, step: Step)
    requires Init(s0) && Inv(s0, s) && Enabled(true, s, step) && step.Crash?
    ensures Inv(s0, Apply(true, s, step))
  {
    var t := Apply(true, s, step);
    BindingsStep(s0, s, step);
    CrashFiles(s0, s, t);
    CrashCalls(s0, s, t);
  }

  /** No call is running after a crash, and those that were acknowledged stay so. */
  lemma CrashCalls(s0: State, s: State, t: State)
    requires AcksOk(s) && Recovers(s, t.dir, t.files) && t.stale == map[] && t.commits == s.commits
    requires t.writers == map w | w in s.writers :: Kill(s.writers[w])
    ensures AcksOk(t) && TempsOk(s0, t)
  {
    assert forall w :: w in t.writers ==> !HoldsTemp(t.writers[w].phase);
    assert Candidates(t, Dest) <= Candidates(s, Dest);
    AcksFrame(s, t);
  }

  /** A crash brings back synced data only under the destination. */
  lemma CrashFiles(s0: State, s: State, t: State)
    requires Init(s0) && DestOk(s0, s) && CommitsOk(s) && Recovers(s, t.dir, t.files)
    requires t.stale == map[] && t.commits == s.commits
    requires forall w :: w in s.writers ==> w in t.writers && t.writers[w].payload == s.writers[w].payload
    ensures DestOk(s0, t) && CommitsOk(t)
  {
    forall b | b in Candidates(t, Dest) ensures Intact(s0, t, b) {
      assert Intact(s0, s, b);
    }
    forall k | 0 <= k < |t.commits| ensures CommitIntact(t, t.commits[k]) {
      assert CommitIntact(s, s.commits[k]);
    }
  }

  lemma StepInv(s0: State, s: State, step: Step)
    requires Init(s0) && Inv(s0, s) && Enabled(true, s, step)
    ensures Inv(s0, Apply(true, s, step))
  {
    match step
    case Open(_, _, _) => OpenInv(s0, s, step);
    case Write(_, _) => DataInv(s0, s, step);
    case SyncData(_, _) => DataInv(s0, s, step);
    case Rename(_, ok) => if ok { RenameInv(s0, s, step); } else { QuietInv(s0, s, step); }
    case Remove(_, _) => RemoveInv(s0, s, step);
    case SyncDir(_, _) => SyncDirInv(s0, s, step);
    case Crash(_, _) => CrashInv(s0, s, step);
    case _ => QuietInv(s0, s, step);
  }

  lemma {:induction false} RunInv(s0: State, s: State, steps: seq<Step>)
    requires Init(s0) && Inv(s0, s) && ValidRun(true, s, steps)
    ensures Inv(s0, Run(true, s, steps))
    decreases |steps|
  {
    if steps != [] {
      StepInv(s0, s, steps[0]);
      RunInv(s0, Apply(true, s, steps[0]), steps[1..]);
    }
  }
}
