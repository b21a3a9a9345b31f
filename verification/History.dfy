/** The undo/redo registry of session_history.rs: two stacks per handle. */
module History {
  import opened Wrappers
  import opened Collections

  const MAX_STACK := 50
  const U64_LIMIT := 0x1_0000_0000_0000_0000

  type Handle = n: int | 0 <= n < U64_LIMIT

  datatype Snapshot = Snapshot(description: string, blob: seq<bv8>)

  datatype Stacks = Stacks(undo: seq<Snapshot>, redo: seq<Snapshot>)

  const EMPTY := Stacks([], [])

  function Push(s: Stacks, x: Snapshot): Stacks {
    var pushed := s.undo + [x];
    Stacks(if |pushed| > MAX_STACK then pushed[1..] else pushed, [])
  }

  function Undo(s: Stacks, current: Snapshot): (Stacks, Option<Snapshot>) {
    if s.undo == [] then (s, None)
    else (Stacks(s.undo[..|s.undo| - 1], s.redo + [current]), Some(s.undo[|s.undo| - 1]))
  }

  function Redo(s: Stacks, current: Snapshot): (Stacks, Option<Snapshot>) {
    if s.redo == [] then (s, None)
    else (Stacks(s.undo + [current], s.redo[..|s.redo| - 1]), Some(s.redo[|s.redo| - 1]))
  }

  function Pushes(s: Stacks, xs: seq<Snapshot>): Stacks {
    if xs == [] then s else Push(Pushes(s, xs[..|xs| - 1]), xs[|xs| - 1])
  }

  function Newest(xs: seq<Snapshot>): seq<Snapshot> {
    if |xs| <= MAX_STACK then xs else xs[|xs| - MAX_STACK..]
  }

  /** Pushing keeps the newest snapshots, in order, and drops what could be redone. */
  lemma {:induction false} PushesKeepNewest(s: Stacks, all: seq<Snapshot>, xs: seq<Snapshot>)
    requires s.undo == Newest(all)
    ensures Pushes(s, xs).undo == Newest(all + xs) && (xs != [] ==> Pushes(s, xs).redo == [])
  {
    if xs == [] {
      assert all + xs == all;
    } else {
      var front, last := xs[..|xs| - 1], xs[|xs| - 1];
      PushesKeepNewest(s, all, front);
      PushNewest(Pushes(s, front), all + front, last);
      assert all + front + [last] == all + xs;
    }
  }

  lemma PushNewest(s: Stacks, xs: seq<Snapshot>, x: Snapshot)
    requires s.undo == Newest(xs)
    ensures Push(s, x).undo == Newest(xs + [x])
  {
    if |xs| >= MAX_STACK {
      var n := |xs| - MAX_STACK;
      assert (xs[n..] + [x])[1..] == (xs + [x])[n + 1..];
    }
  }

  // ------------------------------------------------------------------- the registry

  /** `created` counts the handles minted so far. */
  datatype Registry = Registry(stacks: map<Handle, Stacks>, next: Handle, created: nat)

  const INITIAL := Registry(map[], 1, 0)

  datatype Op =
    | CreateOp
    | DropOp(handle: Handle)
    | PushOp(handle: Handle, snapshot: Snapshot)
    | UndoOp(handle: Handle, snapshot: Snapshot)
    | RedoOp(handle: Handle, snapshot: Snapshot)
    | ClearOp(handle: Handle)

  function On(r: Registry, h: Handle, s: Stacks): Registry {
    r.(stacks := r.stacks[h := s])
  }

  function Apply(r: Registry, op: Op): Registry {
    if op.CreateOp? then Registry(r.stacks[r.next := EMPTY], (r.next + 1) % U64_LIMIT, r.created + 1)
    else if op.handle !in r.stacks then r
    else
      var s := r.stacks[op.handle];
      match op
      case DropOp(h) => r.(stacks := r.stacks - {h})
      case PushOp(h, x) => On(r, h, Push(s, x))
      case UndoOp(h, x) => On(r, h, Undo(s, x).0)
      case RedoOp(h, x) => On(r, h, Redo(s, x).0)
      case ClearOp(h) => On(r, h, EMPTY)
      case CreateOp => r
  }

  function Run(r: Registry, ops: seq<Op>): Registry {
    if ops == [] then r else Apply(Run(r, ops[..|ops| - 1]), ops[|ops| - 1])
  }

  /** Both stacks together stay within the cap, although only `push_undo` enforces it. */
  ghost predicate Capped(r: Registry) {
    forall h :: h in r.stacks ==> |r.stacks[h].undo| + |r.stacks[h].redo| <= MAX_STACK
  }

  lemma {:induction false} RunCapped(ops: seq<Op>)
    ensures Capped(Run(INITIAL, ops))
  {
    if ops != [] {
      RunCapped(ops[..|ops| - 1]);
    }
  }

  /** The handle of the n-th `create`, from 0. */
  function Minted(n: nat): Handle {
    (n + 1) % U64_LIMIT
  }

  ghost predicate MintedOnly(r: Registry) {
    r.next == Minted(r.created) && forall h :: h in r.stacks ==> exists k :: 0 <= k < r.created && h == Minted(k)
  }

  lemma {:induction false} RunMinted(ops: seq<Op>)
    ensures MintedOnly(Run(INITIAL, ops))
  {
    if ops != [] {
      var r := Run(INITIAL, ops[..|ops| - 1]);
      RunMinted(ops[..|ops| - 1]);
      MintedStep(r, ops[|ops| - 1]);
    }
  }

  lemma MintedStep(r: Registry, op: Op)
    requires MintedOnly(r)
    ensures MintedOnly(Apply(r, op))
  {
    var t := Apply(r, op);
    if op.CreateOp? {
      assert (r.next + 1) % U64_LIMIT == Minted(r.created + 1);
      forall h | h in t.stacks ensures exists k :: 0 <= k < t.created && h == Minted(k) {
        if h == r.next {
          assert h == Minted(r.created);
        } else {
          var k :| 0 <= k < r.created && h == Minted(k);
          assert k < t.created;
        }
      }
    }
  }

  /** The handle that an operation is on. */
  function Target(r: Registry, op: Op): Handle {
    if op.CreateOp? then r.next else op.handle
  }

  /** An operation changes no other handle; and `create` hits no live handle before the
      counter has gone round. */
  lemma HandlesIndependent(ops: seq<Op>, op: Op, h: Handle)
    requires h in Run(INITIAL, ops).stacks
    ensures
      var r := Run(INITIAL, ops);
      && (h != Target(r, op) ==> h in Apply(r, op).stacks && Apply(r, op).stacks[h] == r.stacks[h])
      && (op.CreateOp? && r.created < U64_LIMIT ==> h != Target(r, op))
  {
    var r := Run(INITIAL, ops);
    RunMinted(ops);
    var k :| 0 <= k < r.created && h == Minted(k);
    if r.created < U64_LIMIT {
      MintedDiffer(k, r.created);
    }
  }

  lemma MintedDiffer(k: nat, n: nat)
    requires k < n < U64_LIMIT
    ensures Minted(k) != Minted(n)
  {
    if n + 1 == U64_LIMIT {
      assert Minted(n) == 0 && Minted(k) == k + 1;
    } else {
      assert Minted(n) == n + 1 && Minted(k) == k + 1;
    }
  }

  // -------------------------------------------------------------------- the timeline

  /** What a caller shows and what it can go back and forward to. */
  datatype View = View(stacks: Stacks, current: Snapshot)

  /** Oldest to newest, the current state between the two stacks. */
  function Timeline(v: View): seq<Snapshot> {
    v.stacks.undo + [v.current] + Reversed(v.stacks.redo)
  }

  /** A caller passes its current state and adopts what it gets. */
  function Move(v: View, back: bool): View {
    var r := if back then Undo(v.stacks, v.current) else Redo(v.stacks, v.current);
    match r.1
    case Some(x) => View(r.0, x)
    case None => v
  }

  lemma MoveKeepsTimeline(v: View, back: bool)
    ensures Timeline(Move(v, back)) == Timeline(v)
    ensures |Move(v, back).stacks.undo| ==
            |v.stacks.undo| +
            (if back then (if v.stacks.undo == [] then 0 else -1) else if v.stacks.redo == [] then 0 else 1)
  {
    var s := v.stacks;
    if back && s.undo != [] {
      var front, last := s.undo[..|s.undo| - 1], s.undo[|s.undo| - 1];
      assert (s.redo + [v.current])[..|s.redo|] == s.redo;
      assert s.undo == front + [last];
    }
    if !back && s.redo != [] {
      assert Reversed(s.redo) == [s.redo[|s.redo| - 1]] + Reversed(s.redo[..|s.redo| - 1]);
    }
  }

  function Moves(v: View, backs: seq<bool>): View {
    if backs == [] then v else Move(Moves(v, backs[..|backs| - 1]), backs[|backs| - 1])
  }

  lemma {:induction false} MovesKeepTimeline(v: View, backs: seq<bool>)
    ensures Timeline(Moves(v, backs)) == Timeline(v)
  {
    if backs != [] {
      MovesKeepTimeline(v, backs[..|backs| - 1]);
      MoveKeepsTimeline(Moves(v, backs[..|backs| - 1]), backs[|backs| - 1]);
    }
  }

  /** Timeline and position say it all. */
  lemma ViewDetermined(v: View, w: View)
    requires Timeline(v) == Timeline(w) && |v.stacks.undo| == |w.stacks.undo|
    ensures v == w
  {
    var n := |v.stacks.undo|;
    assert v.stacks.undo == Timeline(v)[..n] && w.stacks.undo == Timeline(w)[..n];
    assert v.current == Timeline(v)[n] && w.current == Timeline(w)[n];
    assert Reversed(v.stacks.redo) == Timeline(v)[n + 1..] && Reversed(w.stacks.redo) == Timeline(w)[n + 1..];
    ReversedInjective(v.stacks.redo, w.stacks.redo);
  }

  /** Any mix of undos and redos that ends at the depth it started from restores the
      current state and both stacks. */
  lemma MovesRestore(v: View, backs: seq<bool>)
    requires |Moves(v, backs).stacks.undo| == |v.stacks.undo|
    ensures Moves(v, backs) == v
  {
    MovesKeepTimeline(v, backs);
    ViewDetermined(Moves(v, backs), v);
  }

  /** In particular a redo after a successful undo. */
  lemma UndoThenRedo(v: View)
    requires v.stacks.undo != []
    ensures Move(Move(v, true), false) == v
  {
  }

  // ----------------------------------------------------------------------- the class

  class HistoryRegistry {
    var stacks: map<Handle, Stacks>
    var next: Handle
    ghost var created: nat

    ghost function Model(): Registry
      reads this
    {
      Registry(stacks, next, created)
    }

    constructor ()
      ensures Model() == INITIAL
    {
      stacks, next, created := map[], 1, 0;
    }

    method Create() returns (h: Handle)
      modifies this
      ensures Model() == Apply(old(Model()), CreateOp) && h == old(next)
    {
      h := next;
      next := (next + 1) % U64_LIMIT;
      stacks := stacks[h := EMPTY];
      created := created + 1;
    }

    method DropHandle(h: Handle)
      modifies this
      ensures Model() == Apply(old(Model()), DropOp(h))
    {
      stacks := stacks - {h};
    }

    method PushUndo(h: Handle, x: Snapshot)
      modifies this
      ensures Model() == Apply(old(Model()), PushOp(h, x))
    {
      if h !in stacks {
        return;
      }
      var undo := stacks[h].undo + [x];
      if |undo| > MAX_STACK {
        undo := undo[1..];
      }
      stacks := stacks[h := Stacks(undo, [])];
    }

    method UndoLast(h: Handle, current: Snapshot) returns (popped: Option<Snapshot>)
      modifies this
      ensures Model() == Apply(old(Model()), UndoOp(h, current))
      ensures popped == if h in old(stacks) then Undo(old(stacks)[h], current).1 else None
    {
      if h !in stacks || stacks[h].undo == [] {
        assert h in stacks ==> stacks[h := stacks[h]] == stacks;
        return None;
      }
      var undo := stacks[h].undo;
      popped := Some(undo[|undo| - 1]);
      stacks := stacks[h := Stacks(undo[..|undo| - 1], stacks[h].redo + [current])];
    }

    method RedoLast(h: Handle, current: Snapshot) returns (popped: Option<Snapshot>)
      modifies this
      ensures Model() == Apply(old(Model()), RedoOp(h, current))
      ensures popped == if h in old(stacks) then Redo(old(stacks)[h], current).1 else None
    {
      if h !in stacks || stacks[h].redo == [] {
        assert h in stacks ==> stacks[h := stacks[h]] == stacks;
        return None;
      }
      var redo := stacks[h].redo;
      popped := Some(redo[|redo| - 1]);
      stacks := stacks[h := Stacks(stacks[h].undo + [current], redo[..|redo| - 1])];
    }

    method ClearStacks(h: Handle)
      modifies this
      ensures Model() == Apply(old(Model()), ClearOp(h))
    {
      if h in stacks {
        stacks := stacks[h := EMPTY];
      }
    }
  }

  // ---------------------------------------------------------- what the calls say

  /** The newest 50. */
  lemma NewestSays(xs: seq<Snapshot>)
    ensures |xs| <= 50 ==> Newest(xs) == xs
    ensures |xs| > 50 ==> |Newest(xs)| == 50 && Newest(xs) == xs[|xs| - 50..]
  {
  }

  lemma CapSays(ops: seq<Op>, h: Handle)
    requires h in Run(INITIAL, ops).stacks
    ensures |Run(INITIAL, ops).stacks[h].undo| + |Run(INITIAL, ops).stacks[h].redo| <= 50
  {
    RunCapped(ops);
  }

  /** A new handle has empty stacks, `clear` empties them, `drop` forgets the handle, and
      the first handle is 1. */
  lemma CallsSay(r: Registry, h: Handle)
    ensures
      var made := Apply(r, CreateOp);
      r.next in made.stacks && made.stacks[r.next].undo == [] && made.stacks[r.next].redo == []
    ensures h in r.stacks ==>
              Apply(r, ClearOp(h)).stacks[h].undo == [] && Apply(r, ClearOp(h)).stacks[h].redo == []
    ensures h !in Apply(r, DropOp(h)).stacks && INITIAL.next == 1
  {
  }

  /** An undo hands out the snapshot last pushed, and a redo the one last undone. */
  lemma HandsOut(s: Stacks, x: Snapshot, current: Snapshot)
    ensures Undo(Push(s, x), current).1 == Some(x)
    ensures s.undo != [] ==> Redo(Undo(s, current).0, x).1 == Some(current)
    ensures Undo(EMPTY, current).1 == None && Redo(Push(s, x), current).1 == None
  {
  }
}
