/**
 The secret store of secrets.rs and its pin discipline.  `mlock` and `munlock` work on
 whole pages and do not nest (lfs_os_security/src/lib.rs), so the model keeps two
 accounts: how often each buffer was pinned less how often it was unpinned, and which
 pages are locked.  Addresses come from the allocator and are part of the input.
*/
module Secrets {
  import opened Wrappers
  import opened Collections

  const PAGE := 4096

  /** A heap buffer; `handle` tells allocations apart. */
  datatype Buffer = Buffer(handle: nat, addr: nat, bytes: seq<bv8>)

  predicate Touches(b: Buffer, page: nat) {
    b.bytes != [] && b.addr / PAGE <= page <= (b.addr + |b.bytes| - 1) / PAGE
  }

  /** The pages that a buffer touches; none when it is empty. */
  function Pages(b: Buffer): set<nat> {
    set p: nat | p <= (b.addr + |b.bytes|) / PAGE && Touches(b, p)
  }

  datatype State = State(slots: map<string, Buffer>, pins: map<nat, int>, locked: set<nat>, next: nat)

  const INITIAL := State(map[], map[], {}, 0)

  /** `page_lock`. */
  function PageLock(s: State, b: Buffer): State {
    if b.bytes == [] then s
    else s.(pins := s.pins[b.handle := Tally(s.pins, b.handle) + 1], locked := s.locked + Pages(b))
  }

  /** `page_unlock`. */
  function PageUnlock(s: State, b: Buffer): State {
    if b.bytes == [] then s
    else s.(pins := s.pins[b.handle := Tally(s.pins, b.handle) - 1], locked := s.locked - Pages(b))
  }

  function Handles(slots: map<string, Buffer>): set<nat> {
    set id | id in slots && slots[id].bytes != [] :: slots[id].handle
  }

  function PagesOf(slots: map<string, Buffer>): set<nat> {
    set id, p | id in slots && p in Pages(slots[id]) :: p
  }

  function Unpin(pins: map<nat, int>, handles: set<nat>): map<nat, int> {
    map h | h in pins.Keys + handles :: Tally(pins, h) - (if h in handles then 1 else 0)
  }

  lemma UnpinNext(pins: map<nat, int>, handles: set<nat>, h: nat)
    requires h !in handles
    ensures Unpin(pins, handles + {h}) == Unpin(pins, handles)[h := Tally(Unpin(pins, handles), h) - 1]
  {
  }

  /** Unlock each of the buffers in `done`. */
  function UnlockOf(s: State, done: map<string, Buffer>): State {
    s.(pins := Unpin(s.pins, Handles(done)), locked := s.locked - PagesOf(done))
  }

  lemma UnlockNone(s: State)
    ensures UnlockOf(s, map[]) == s
  {
  }

  lemma UnlockNext(s: State, done: map<string, Buffer>, id: string, b: Buffer)
    requires id !in done && forall other :: other in done ==> done[other].handle != b.handle
    ensures UnlockOf(s, done[id := b]) == PageUnlock(UnlockOf(s, done), b)
  {
    HandlesAdded(done, id, b);
    PagesAdded(done, id, b);
    EmptyTouches(b);
    if b.bytes == [] {
      assert Handles(done) + {} == Handles(done);
    } else {
      assert b.handle !in Handles(done);
      UnpinNext(s.pins, Handles(done), b.handle);
    }
    assert s.locked - (PagesOf(done) + Pages(b)) == s.locked - PagesOf(done) - Pages(b);
  }

  datatype Step =
    | Put(id: string, bytes: seq<bv8>, addr: nat)
    | Remove(id: string)
    | Clear
    | Rename(source: string, target: string)

  /** Put a buffer under an id, and unlock the one it replaces. */
  function Insert(s: State, id: string, b: Buffer): State {
    var t := s.(slots := s.slots[id := b]);
    if id in s.slots then PageUnlock(t, s.slots[id]) else t
  }

  function Apply(s: State, step: Step): State {
    match step
    case Put(id, bytes, addr) =>
      var b := Buffer(s.next, addr, bytes);
      Insert(PageLock(s.(next := s.next + 1), b), id, b)
    case Remove(id) => if id in s.slots then PageUnlock(s.(slots := s.slots - {id}), s.slots[id]) else s
    case Clear => UnlockOf(s, s.slots).(slots := map[])
    case Rename(source, target) =>
      if source == target || source !in s.slots then s
      else Insert(s.(slots := s.slots - {source}), target, s.slots[source])
  }

  function Run(s: State, steps: seq<Step>): State
    decreases |steps|
  {
    if steps == [] then s else Run(Apply(s, steps[0]), steps[1..])
  }

  // --------------------------------------------------------------- pins, by buffer

  ghost predicate OwnHandles(s: State) {
    Injective(s.slots) && Below(s.slots, s.next)
  }

  ghost predicate Injective(slots: map<string, Buffer>) {
    forall id, other :: id in slots && other in slots && slots[id].handle == slots[other].handle ==> id == other
  }

  ghost predicate Below(slots: map<string, Buffer>, next: nat) {
    forall id :: id in slots ==> slots[id].handle < next
  }

  /** Each buffer is pinned once while it is resident and not empty, and not otherwise. */
  ghost predicate PinsExact(s: State) {
    forall h :: Tally(s.pins, h) == if h in Handles(s.slots) then 1 else 0
  }

  lemma HandlesStep(s: State, step: Step)
    requires OwnHandles(s)
    ensures OwnHandles(Apply(s, step))
  {
  }

  function Own(b: Buffer): set<nat> {
    if b.bytes == [] then {} else {b.handle}
  }

  lemma HandlesRemoved(slots: map<string, Buffer>, id: string)
    requires id in slots && Injective(slots)
    ensures Handles(slots - {id}) == Handles(slots) - Own(slots[id])
  {
    forall h ensures h in Handles(slots - {id}) <==> h in Handles(slots) - Own(slots[id]) {
      if h in Handles(slots) - Own(slots[id]) {
        var other :| other in slots && slots[other].bytes != [] && slots[other].handle == h;
        assert other in slots - {id};
      }
    }
  }

  lemma HandlesAdded(slots: map<string, Buffer>, id: string, b: Buffer)
    requires id !in slots
    ensures Handles(slots[id := b]) == Handles(slots) + Own(b)
  {
    var more := slots[id := b];
    forall h ensures h in Handles(more) <==> h in Handles(slots) + Own(b) {
      if h in Handles(slots) {
        var other :| other in slots && slots[other].bytes != [] && slots[other].handle == h;
        assert more[other] == slots[other];
      }
      if h in Own(b) {
        assert more[id].handle == h;
      }
    }
  }

  /** Replacing is removing and adding. */
  lemma HandlesReplaced(slots: map<string, Buffer>, id: string, b: Buffer)
    requires Injective(slots)
    ensures id in slots ==> Own(slots[id]) <= Handles(slots)
    ensures Handles(slots[id := b]) ==
            (if id in slots then Handles(slots) - Own(slots[id]) else Handles(slots)) + Own(b)
  {
    if id in slots {
      HandlesRemoved(slots, id);
      HandlesAdded(slots - {id}, id, b);
      assert (slots - {id})[id := b] == slots[id := b];
    } else {
      HandlesAdded(slots, id, b);
    }
  }

  lemma PinsExactPut(s: State, id: string, bytes: seq<bv8>, addr: nat)
    requires OwnHandles(s) && PinsExact(s)
    ensures PinsExact(Apply(s, Put(id, bytes, addr)))
  {
    HandlesReplaced(s.slots, id, Buffer(s.next, addr, bytes));
    assert s.next !in Handles(s.slots);
    var t := Apply(s, Put(id, bytes, addr));
    forall h ensures Tally(t.pins, h) == if h in Handles(t.slots) then 1 else 0 {
      assert Tally(s.pins, h) == if h in Handles(s.slots) then 1 else 0;
    }
  }

  lemma PinsExactRemove(s: State, id: string)
    requires OwnHandles(s) && PinsExact(s)
    ensures PinsExact(Apply(s, Remove(id)))
  {
    if id in s.slots {
      HandlesRemoved(s.slots, id);
    }
  }

  lemma PinsExactRename(s: State, source: string, target: string)
    requires OwnHandles(s) && PinsExact(s)
    ensures PinsExact(Apply(s, Rename(source, target)))
  {
    if source != target && source in s.slots {
      HandlesRemoved(s.slots, source);
      HandlesReplaced(s.slots - {source}, target, s.slots[source]);
      assert Own(s.slots[source]) <= Handles(s.slots);
      var t := Apply(s, Rename(source, target));
      forall h ensures Tally(t.pins, h) == if h in Handles(t.slots) then 1 else 0 {
        assert Tally(s.pins, h) == if h in Handles(s.slots) then 1 else 0;
      }
    }
  }

  lemma {:induction false} RunPins(s: State, steps: seq<Step>)
    requires OwnHandles(s) && PinsExact(s)
    ensures OwnHandles(Run(s, steps)) && PinsExact(Run(s, steps))
    decreases |steps|
  {
    if steps != [] {
      HandlesStep(s, steps[0]);
      match steps[0] {
        case Put(id, bytes, addr) => PinsExactPut(s, id, bytes, addr);
        case Remove(id) => PinsExactRemove(s, id);
        case Rename(source, target) => PinsExactRename(s, source, target);
        case Clear =>
      }
      RunPins(Apply(s, steps[0]), steps[1..]);
    }
  }

  /** In every run the pinned buffers are exactly the non-empty resident ones: nothing is
      unpinned twice, and nothing leaves the map pinned. */
  lemma PinnedExactly(steps: seq<Step>)
    ensures PinsExact(Run(INITIAL, steps))
  {
    RunPins(INITIAL, steps);
  }

  /** A rename keeps the buffer, and with it the pin, of the moved secret. */
  lemma RenameMoves(s: State, source: string, target: string)
    requires OwnHandles(s) && PinsExact(s) && source in s.slots && source != target
    ensures
      var t := Apply(s, Rename(source, target));
      && source !in t.slots && target in t.slots && t.slots[target] == s.slots[source]
      && Tally(t.pins, s.slots[source].handle) == Tally(s.pins, s.slots[source].handle)
      && (forall id :: id != source && id != target ==> (id in t.slots <==> id in s.slots))
      && (forall id :: id != source && id != target && id in s.slots ==> t.slots[id] == s.slots[id])
  {
  }

  // ------------------------------------------------------------------ locks, by page

  lemma PagesRemoved(slots: map<string, Buffer>, id: string)
    requires id in slots
    ensures PagesOf(slots) == PagesOf(slots - {id}) + Pages(slots[id])
  {
    forall p ensures p in PagesOf(slots) <==> p in PagesOf(slots - {id}) + Pages(slots[id]) {
      if p in PagesOf(slots) && p !in Pages(slots[id]) {
        var other :| other in slots && p in Pages(slots[other]);
        assert other in slots - {id};
      }
      if p in PagesOf(slots - {id}) {
        var other :| other in slots - {id} && p in Pages((slots - {id})[other]);
        assert slots[other] == (slots - {id})[other];
      }
    }
  }

  lemma PagesAdded(slots: map<string, Buffer>, id: string, b: Buffer)
    requires id !in slots
    ensures PagesOf(slots[id := b]) == PagesOf(slots) + Pages(b)
  {
    var more := slots[id := b];
    PagesRemoved(more, id);
    assert more - {id} == slots;
  }

  /** The slots without the one that is about to be replaced. */
  function Others(slots: map<string, Buffer>, id: string): map<string, Buffer> {
    slots - {id}
  }

  lemma PagesReplaced(slots: map<string, Buffer>, id: string, b: Buffer)
    ensures PagesOf(slots[id := b]) == PagesOf(Others(slots, id)) + Pages(b)
    ensures PagesOf(slots) == PagesOf(Others(slots, id)) + if id in slots then Pages(slots[id]) else {}
  {
    PagesAdded(Others(slots, id), id, b);
    assert Others(slots, id)[id := b] == slots[id := b];
    if id in slots {
      PagesRemoved(slots, id);
    } else {
      assert Others(slots, id) == slots;
    }
  }

  /** No page stays locked that no resident secret touches, in any run. */
  ghost predicate NoLeak(s: State) {
    s.locked <= PagesOf(s.slots)
  }

  lemma InsertLocked(s: State, id: string, b: Buffer)
    requires s.locked <= PagesOf(s.slots) + Pages(b)
    ensures NoLeak(Insert(s, id, b))
  {
    PagesReplaced(s.slots, id, b);
    EmptyTouches(if id in s.slots then s.slots[id] else b);
  }

  lemma EmptyTouches(b: Buffer)
    ensures b.bytes == [] ==> Pages(b) == {}
  {
  }

  lemma NoLeakStep(s: State, step: Step)
    requires NoLeak(s)
    ensures NoLeak(Apply(s, step))
  {
    match step
    case Put(id, bytes, addr) =>
      var b := Buffer(s.next, addr, bytes);
      InsertLocked(PageLock(s.(next := s.next + 1), b), id, b);
    case Remove(id) =>
      if id in s.slots {
        PagesRemoved(s.slots, id);
        EmptyTouches(s.slots[id]);
      }
    case Rename(source, target) =>
      if source != target && source in s.slots {
        PagesRemoved(s.slots, source);
        InsertLocked(s.(slots := s.slots - {source}), target, s.slots[source]);
      }
    case Clear =>
  }

  lemma {:induction false} RunNoLeak(s: State, steps: seq<Step>)
    requires NoLeak(s)
    ensures NoLeak(Run(s, steps))
    decreases |steps|
  {
    if steps != [] {
      NoLeakStep(s, steps[0]);
      RunNoLeak(Apply(s, steps[0]), steps[1..]);
    }
  }

  /** Whether the allocator gives every secret pages of its own. */
  predicate Enabled(apart: bool, s: State, step: Step) {
    apart && step.Put? ==> Pages(Buffer(s.next, step.addr, step.bytes)) !! PagesOf(s.slots)
  }

  predicate ValidRun(apart: bool, s: State, steps: seq<Step>)
    decreases |steps|
  {
    steps == [] || (Enabled(apart, s, steps[0]) && ValidRun(apart, Apply(s, steps[0]), steps[1..]))
  }

  ghost predicate Apart(slots: map<string, Buffer>) {
    forall id, other :: id in slots && other in slots && id != other ==> Pages(slots[id]) !! Pages(slots[other])
  }

  /** The locked pages are exactly those of the resident secrets. */
  ghost predicate Guarded(s: State) {
    s.locked == PagesOf(s.slots)
  }

  lemma ApartOthers(slots: map<string, Buffer>, id: string)
    requires Apart(slots) && id in slots
    ensures PagesOf(slots - {id}) !! Pages(slots[id])
  {
  }

  lemma InsertGuarded(s: State, id: string, b: Buffer)
    requires Apart(s.slots) && s.locked == PagesOf(s.slots) + Pages(b) && Pages(b) !! PagesOf(s.slots)
    ensures Guarded(Insert(s, id, b)) && Apart(Insert(s, id, b).slots)
  {
    PagesReplaced(s.slots, id, b);
    ApartInsert(s.slots, id, b);
    if id in s.slots {
      ApartOthers(s.slots, id);
      EmptyTouches(s.slots[id]);
    }
  }

  lemma ApartInsert(slots: map<string, Buffer>, id: string, b: Buffer)
    requires Apart(slots) && Pages(b) !! PagesOf(slots)
    ensures Apart(slots[id := b])
  {
    forall other | other in slots ensures Pages(slots[other]) <= PagesOf(slots) {
    }
  }

  lemma GuardedStep(s: State, step: Step)
    requires Guarded(s) && Apart(s.slots) && Enabled(true, s, step)
    ensures Guarded(Apply(s, step)) && Apart(Apply(s, step).slots)
  {
    match step
    case Put(id, bytes, addr) =>
      var b := Buffer(s.next, addr, bytes);
      EmptyTouches(b);
      InsertGuarded(PageLock(s.(next := s.next + 1), b), id, b);
    case Remove(id) =>
      if id in s.slots {
        PagesRemoved(s.slots, id);
        ApartOthers(s.slots, id);
        EmptyTouches(s.slots[id]);
      }
    case Rename(source, target) =>
      if source != target && source in s.slots {
        PagesRemoved(s.slots, source);
        ApartOthers(s.slots, source);
        InsertGuarded(s.(slots := s.slots - {source}), target, s.slots[source]);
      }
    case Clear =>
  }

  lemma {:induction false} RunGuarded(s: State, steps: seq<Step>)
    requires Guarded(s) && Apart(s.slots) && ValidRun(true, s, steps)
    ensures Guarded(Run(s, steps))
    decreases |steps|
  {
    if steps != [] {
      GuardedStep(s, steps[0]);
      RunGuarded(Apply(s, steps[0]), steps[1..]);
    }
  }

  /** Two small secrets on one page: dropping one unlocks the other. */
  lemma SharedPageUnlocks() returns (steps: seq<Step>)
    ensures ValidRun(false, INITIAL, steps) && !Guarded(Run(INITIAL, steps))
  {
    steps := [Put("a", [1], 0), Put("b", [2], 1), Remove("a")];
    var s1 := Apply(INITIAL, steps[0]);
    var s2 := Apply(s1, steps[1]);
    var s3 := Apply(s2, steps[2]);
    assert steps[1..][0] == steps[1] && steps[1..][1..][0] == steps[2] && steps[1..][1..][1..] == [];
    assert "a" != "b" by { assert "a"[0] != "b"[0]; }
    var a, b := Buffer(0, 0, [1]), Buffer(1, 1, [2]);
    assert s2.slots == map["a" := a, "b" := b];
    assert Touches(a, 0) && Touches(b, 0);
    assert 0 in Pages(a) && 0 in Pages(b);
    assert s3.slots["b"] == b && 0 !in s3.locked;
    assert 0 in PagesOf(s3.slots);
  }

  /** That every resident secret stays locked in every run that an allocator allows comes
      down to whether it lets secrets share pages. */
  lemma PagesDecide(apart: bool)
    ensures apart <==> forall steps :: ValidRun(apart, INITIAL, steps) ==> Guarded(Run(INITIAL, steps))
  {
    if apart {
      forall steps | ValidRun(apart, INITIAL, steps) ensures Guarded(Run(INITIAL, steps)) {
        RunGuarded(INITIAL, steps);
      }
    } else {
      var steps := SharedPageUnlocks();
    }
  }

  /** The pages of the buffers that a step drops or overwrites. */
  function Dropped(s: State, step: Step): set<nat> {
    match step
    case Put(id, _, _) => if id in s.slots then Pages(s.slots[id]) else {}
    case Remove(id) => if id in s.slots then Pages(s.slots[id]) else {}
    case Clear => PagesOf(s.slots)
    case Rename(source, target) =>
      if source != target && source in s.slots && target in s.slots then Pages(s.slots[target]) else {}
  }

  lemma InsertGuardedIff(s: State, id: string, b: Buffer)
    requires s.locked == PagesOf(s.slots) + Pages(b)
    ensures
      Guarded(Insert(s, id, b)) <==>
      (if id in s.slots then Pages(s.slots[id]) else {}) !! PagesOf(Insert(s, id, b).slots)
  {
    PagesReplaced(s.slots, id, b);
    if id in s.slots {
      EmptyTouches(s.slots[id]);
    }
  }

  /** A step keeps every resident secret locked exactly when no buffer that it drops or
      overwrites shares a page with one that stays. */
  lemma StepGuardedIff(s: State, step: Step)
    requires Guarded(s)
    ensures Guarded(Apply(s, step)) <==> Dropped(s, step) !! PagesOf(Apply(s, step).slots)
  {
    match step
    case Put(id, bytes, addr) =>
      var b := Buffer(s.next, addr, bytes);
      EmptyTouches(b);
      InsertGuardedIff(PageLock(s.(next := s.next + 1), b), id, b);
    case Remove(id) =>
      if id in s.slots {
        PagesRemoved(s.slots, id);
        EmptyTouches(s.slots[id]);
      }
    case Rename(source, target) =>
      if source != target && source in s.slots {
        PagesRemoved(s.slots, source);
        InsertGuardedIff(s.(slots := s.slots - {source}), target, s.slots[source]);
      }
    case Clear =>
  }

  /** Every resident secret is locked at every point of the run. */
  ghost predicate GuardedThroughout(s: State, steps: seq<Step>)
    decreases |steps|
  {
    Guarded(s) && (steps == [] || GuardedThroughout(Apply(s, steps[0]), steps[1..]))
  }

  ghost predicate DropsApart(s: State, steps: seq<Step>)
    decreases |steps|
  {
    steps == [] ||
    (Dropped(s, steps[0]) !! PagesOf(Apply(s, steps[0]).slots) && DropsApart(Apply(s, steps[0]), steps[1..]))
  }

  /** Run by run: every resident secret is locked at every point exactly when no buffer is
      dropped or overwritten while it shares a page with one that stays. */
  lemma {:induction false} GuardedThroughoutIff(s: State, steps: seq<Step>)
    requires Guarded(s)
    ensures GuardedThroughout(s, steps) <==> DropsApart(s, steps)
    decreases |steps|
  {
    if steps != [] {
      StepGuardedIff(s, steps[0]);
      if Guarded(Apply(s, steps[0])) {
        GuardedThroughoutIff(Apply(s, steps[0]), steps[1..]);
      }
    }
  }

  // --------------------------------------------------------------------- the contents

  /** What a caller can read: the bytes under each id. */
  function Contents(s: State): map<string, seq<bv8>> {
    map id | id in s.slots :: s.slots[id].bytes
  }

  /** The same calls on a plain map. */
  function ApplyPlain(m: map<string, seq<bv8>>, step: Step): map<string, seq<bv8>> {
    match step
    case Put(id, bytes, _) => m[id := bytes]
    case Remove(id) => m - {id}
    case Clear => map[]
    case Rename(source, target) => if source in m then (m - {source})[target := m[source]] else m
  }

  function RunPlain(m: map<string, seq<bv8>>, steps: seq<Step>): map<string, seq<bv8>>
    decreases |steps|
  {
    if steps == [] then m else RunPlain(ApplyPlain(m, steps[0]), steps[1..])
  }

  lemma ContentsStep(s: State, step: Step)
    ensures Contents(Apply(s, step)) == ApplyPlain(Contents(s), step)
  {
  }

  /** Buffers, pins and pages aside, the store is a map from ids to bytes. */
  lemma {:induction false} RunContents(s: State, steps: seq<Step>)
    ensures Contents(Run(s, steps)) == RunPlain(Contents(s), steps)
    decreases |steps|
  {
    if steps != [] {
      ContentsStep(s, steps[0]);
      RunContents(Apply(s, steps[0]), steps[1..]);
    }
  }

  // ----------------------------------------------------------------------- the class

  class SecretStore {
    var slots: map<string, Buffer>
    ghost var pins: map<nat, int>
    ghost var locked: set<nat>
    var next: nat

    ghost function Model(): State
      reads this
    {
      State(slots, pins, locked, next)
    }

    constructor ()
      ensures Model() == INITIAL
    {
      slots, next := map[], 0;
      pins, locked := map[], {};
    }

    ghost method Lock(b: Buffer)
      modifies this`pins, this`locked
      ensures Model() == PageLock(old(Model()), b)
    {
      if b.bytes != [] {
        pins := pins[b.handle := Tally(pins, b.handle) + 1];
        locked := locked + Pages(b);
      }
    }

    ghost method Unlock(b: Buffer)
      modifies this`pins, this`locked
      ensures Model() == PageUnlock(old(Model()), b)
    {
      if b.bytes != [] {
        pins := pins[b.handle := Tally(pins, b.handle) - 1];
        locked := locked - Pages(b);
      }
    }

    /** `put`; the allocator places the copy at `addr`. */
    method PutBytes(id: string, bytes: seq<bv8>, addr: nat)
      modifies this
      ensures Model() == Apply(old(Model()), Put(id, bytes, addr))
    {
      var z := Buffer(next, addr, bytes);
      next := next + 1;
      Lock(z);
      var was := if id in slots then Some(slots[id]) else None;
      slots := slots[id := z];
      if was.Some? {
        Unlock(was.value);
      }
    }

    method Has(id: string) returns (found: bool)
      ensures found <==> id in Contents(Model())
    {
      found := id in slots;
    }

    /** `get`: a copy of the bytes. */
    method GetBytes(id: string) returns (bytes: Option<seq<bv8>>)
      ensures bytes.Some? <==> id in Contents(Model())
      ensures bytes.Some? ==> bytes.value == Contents(Model())[id]
    {
      bytes := if id in slots then Some(slots[id].bytes) else None;
    }

    /** `drop_id`. */
    method DropId(id: string)
      modifies this
      ensures Model() == Apply(old(Model()), Remove(id))
    {
      var gone := TakeBytes(id);
    }

    /** `take`. */
    method TakeBytes(id: string) returns (removed: Option<Buffer>)
      modifies this
      ensures Model() == Apply(old(Model()), Remove(id))
      ensures removed == if id in old(slots) then Some(old(slots)[id]) else None
    {
      removed := if id in slots then Some(slots[id]) else None;
      if removed.Some? {
        slots := slots - {id};
        Unlock(removed.value);
      }
    }

    /** `clear`. */
    method ClearAll()
      requires OwnHandles(Model())
      modifies this
      ensures Model() == Apply(old(Model()), Clear)
    {
      var left := slots.Keys;
      ghost var was, done: map<string, Buffer> := Model(), map[];
      UnlockNone(was);
      while left != {}
        invariant left <= slots.Keys && done.Keys == slots.Keys - left
        invariant forall id :: id in done ==> done[id] == slots[id]
        invariant Model() == UnlockOf(was, done)
        decreases left
      {
        var id :| id in left;
        UnlockNext(was, done, id, slots[id]);
        Unlock(slots[id]);
        left, done := left - {id}, done[id := slots[id]];
      }
      assert done == slots;
      slots := map[];
    }

    /** `rename`. */
    method RenameId(source: string, target: string) returns (moved: bool)
      modifies this
      ensures Model() == Apply(old(Model()), Rename(source, target))
      ensures moved <==> source in old(slots)
    {
      if source == target {
        moved := Has(source);
        return;
      }
      if source !in slots {
        return false;
      }
      var buf := slots[source];
      slots := slots - {source};
      var was := if target in slots then Some(slots[target]) else None;
      slots := slots[target := buf];
      if was.Some? {
        Unlock(was.value);
      }
      moved := true;
    }
  }

  /** The page of a buffer's `i`-th byte. */
  function PageAt(b: Buffer, i: nat): nat {
    (b.addr + i) / PAGE
  }

  lemma PagesInOrder(a: nat, b: nat)
    requires a <= b
    ensures a / PAGE <= b / PAGE
  {
  }

  /** The pages of a buffer are those of its bytes. */
  lemma PagesSay(b: Buffer, page: nat)
    ensures page in Pages(b) <==> exists i: nat :: i < |b.bytes| && PageAt(b, i) == page
  {
    if page in Pages(b) {
      var i := if page == b.addr / PAGE then 0 else page * PAGE - b.addr;
      assert 0 <= i < |b.bytes| && PageAt(b, i) == page;
    }
    if i: nat :| i < |b.bytes| && PageAt(b, i) == page {
      PagesInOrder(b.addr, b.addr + i);
      PagesInOrder(b.addr + i, b.addr + |b.bytes| - 1);
      PagesInOrder(b.addr + i, b.addr + |b.bytes|);
      assert Touches(b, page);
    }
  }
}
