/**
 The ProxyJump cycle probe and the label deduplication of sessions.rs.
*/
module Sessions {
  import opened Wrappers
  import opened Collections
  import Decimal

  // ------------------------------------------------------------------ bastion graph

  /** Each saved session with the session it jumps through, if any. */
  type Graph = map<string, Option<string>>

  datatype ProxyRef = ProxyRef(sessionId: string, via: Option<string>)

  /** Collecting into a `HashMap`: a later row for the same id wins. */
  function Lookup(chain: seq<ProxyRef>): Graph {
    if chain == [] then map[]
    else Lookup(chain[..|chain| - 1])[chain[|chain| - 1].sessionId := chain[|chain| - 1].via]
  }

  function Next(g: Graph, n: string): Option<string> {
    if n in g then g[n] else None
  }

  /** The node `k` jumps after `n`. */
  function Jump(g: Graph, n: string, k: nat): Option<string> {
    if k == 0 then Some(n)
    else
      match Jump(g, n, k - 1)
      case None => None
      case Some(m) => Next(g, m)
  }

  ghost predicate Reaches(g: Graph, from: string, to: string) {
    exists k: nat :: Jump(g, from, k) == Some(to)
  }

  lemma {:induction false} JumpJump(g: Graph, n: string, j: nat, k: nat)
    ensures Jump(g, n, j + k) == match Jump(g, n, j) case None => None case Some(m) => Jump(g, m, k)
  {
    if k > 0 {
      JumpJump(g, n, j, k - 1);
    }
  }

  /** Once a node repeats, every later node is one of those before the repetition. */
  lemma {:induction false} JumpRepeats(g: Graph, n: string, j: nat, k: nat, i: nat) returns (i': nat)
    requires j < k && Jump(g, n, j) == Jump(g, n, k)
    ensures i' < k && Jump(g, n, i') == Jump(g, n, i)
    decreases i
  {
    if i < k {
      i' := i;
    } else {
      JumpJump(g, n, k, i - k);
      JumpJump(g, n, j, i - k);
      i' := JumpRepeats(g, n, j, k, j + (i - k));
    }
  }

  lemma {:induction false} JumpEnds(g: Graph, n: string, k: nat, i: nat)
    requires Jump(g, n, k) == None && k <= i
    ensures Jump(g, n, i) == None
  {
    if k < i {
      JumpEnds(g, n, k, i - 1);
    }
  }

  /** `detect_proxy_cycle`: true exactly when the candidate's chain leads to the seed. */
  method DetectProxyCycle(seed: Option<string>, candidate: string, chain: seq<ProxyRef>) returns (cycle: bool)
    ensures cycle <==> seed.Some? && Reaches(Lookup(chain), candidate, seed.value)
  {
    if seed.None? {
      return false;
    }
    var lookup: Graph := map[];
    for i := 0 to |chain|
      invariant lookup == Lookup(chain[..i])
    {
      assert chain[..i + 1][..i] == chain[..i];
      lookup := lookup[chain[i].sessionId := chain[i].via];
    }
    assert chain[..|chain|] == chain;
    cycle := Walk(lookup, seed.value, candidate);
  }

  /** Its walk along the chain. */
  method Walk(lookup: Graph, seed: string, candidate: string) returns (cycle: bool)
    ensures cycle <==> Reaches(lookup, candidate, seed)
  {
    var visited: set<string> := {};
    var current := Some(candidate);
    ghost var k: nat := 0;
    while current.Some?
      invariant current == Jump(lookup, candidate, k)
      invariant forall n :: n in visited ==> exists j :: 0 <= j < k && Jump(lookup, candidate, j) == Some(n)
      invariant forall j :: 0 <= j < k ==> Jump(lookup, candidate, j) != Some(seed)
      decreases current.Some?, lookup.Keys - visited
    {
      var node := current.value;
      if node in visited {
        ghost var j :| 0 <= j < k && Jump(lookup, candidate, j) == Some(node);
        forall i: nat ensures Jump(lookup, candidate, i) != Some(seed) {
          var i' := JumpRepeats(lookup, candidate, j, k, i);
        }
        return false;
      }
      visited := visited + {node};
      if node == seed {
        return true;
      }
      current := if node in lookup then lookup[node] else None;
      k := k + 1;
      assert Jump(lookup, candidate, k - 1) == Some(node);
    }
    forall i: nat ensures Jump(lookup, candidate, i) != Some(seed) {
      if i >= k {
        JumpEnds(lookup, candidate, k, i);
      }
    }
    return false;
  }

  // ---------------------------------------------------------------------- acyclicity

  ghost predicate Acyclic(g: Graph) {
    forall n: string, k: nat :: k > 0 ==> Jump(g, n, k) != Some(n)
  }

  /** Two graphs that differ only in the row of `s` agree until `s` is met. */
  lemma {:induction false} JumpAgrees(g: Graph, h: Graph, s: string, n: string, k: nat)
    requires forall m :: m != s ==> Next(g, m) == Next(h, m)
    requires forall j :: 0 <= j < k ==> Jump(g, n, j) != Some(s)
    ensures Jump(h, n, k) == Jump(g, n, k)
  {
    if k > 0 {
      JumpAgrees(g, h, s, n, k - 1);
    }
  }

  lemma {:induction false} FirstMeeting(g: Graph, n: string, s: string, k: nat) returns (m: nat)
    requires Jump(g, n, k) == Some(s)
    ensures m <= k && Jump(g, n, m) == Some(s) && forall j :: 0 <= j < m ==> Jump(g, n, j) != Some(s)
  {
    if j :| 0 <= j < k && Jump(g, n, j) == Some(s) {
      m := FirstMeeting(g, n, s, j);
    } else {
      m := k;
    }
  }

  /** Reaching `s` does not depend on the row of `s`. */
  lemma ReachesAgrees(g: Graph, h: Graph, s: string, n: string)
    requires forall m :: m != s ==> Next(g, m) == Next(h, m)
    ensures Reaches(g, n, s) <==> Reaches(h, n, s)
  {
    if k: nat :| Jump(g, n, k) == Some(s) {
      var m := FirstMeeting(g, n, s, k);
      JumpAgrees(g, h, s, n, m);
    }
    if k: nat :| Jump(h, n, k) == Some(s) {
      var m := FirstMeeting(h, n, s, k);
      JumpAgrees(h, g, s, n, m);
    }
  }

  /** A new edge closes a cycle exactly when its target already leads back to its source. */
  lemma EdgeAcyclicIff(g: Graph, s: string, c: string)
    requires Acyclic(g)
    ensures Acyclic(g[s := Some(c)]) <==> !Reaches(g, c, s)
  {
    var h := g[s := Some(c)];
    ReachesAgrees(g, h, s, c);
    assert Jump(h, s, 0) == Some(s) && Jump(h, s, 1) == Some(c);
    if k: nat :| Jump(h, c, k) == Some(s) {
      JumpJump(h, s, 1, k);
      assert Jump(h, s, 1 + k) == Some(s);
    }
    if !Acyclic(h) {
      var n: string, k: nat :| k > 0 && Jump(h, n, k) == Some(n);
      if j :| 0 <= j < k && Jump(h, n, j) == Some(s) {
        JumpJump(h, n, j, k - j);
        JumpJump(h, s, k - j, j);
        assert Jump(h, s, k) == Some(s);
        JumpJump(h, s, 1, k - 1);
        assert Jump(h, c, k - 1) == Some(s);
      } else {
        JumpAgrees(h, g, s, n, k);
      }
    }
  }

  // ---------------------------------------------------------------- runs of edits

  /** Edits of the saved-session table.  A `via` names an existing session and deleting
      a session clears the references to it, as the foreign key demands. */
  datatype Edit =
    | SetVia(id: string, via: string)
    | ClearVia(id: string)
    | Add(id: string, start: Option<string>)
    | Delete(id: string)

  ghost predicate Linked(g: Graph) {
    forall n :: n in g && g[n].Some? ==> g[n].value in g
  }

  /** Which edits the editor lets through: `SetVia` only when the probe says no cycle,
      `Add` only under a new id. */
  ghost predicate Accepted(g: Graph, e: Edit) {
    match e
    case SetVia(id, via) => id in g && via in g && !Reaches(g, via, id)
    case ClearVia(id) => id in g
    case Add(id, via) => id !in g && (via.Some? ==> via.value in g)
    case Delete(id) => id in g
  }

  ghost function Apply(g: Graph, e: Edit): Graph {
    match e
    case SetVia(id, via) => g[id := Some(via)]
    case ClearVia(id) => g[id := None]
    case Add(id, via) => g[id := via]
    case Delete(id) => map n | n in g && n != id :: if g[n] == Some(id) then None else g[n]
  }

  ghost function Run(g: Graph, edits: seq<Edit>): Graph {
    if edits == [] then g
    else
      var h := Run(g, edits[..|edits| - 1]);
      var e := edits[|edits| - 1];
      if Accepted(h, e) then Apply(h, e) else h
  }

  /** Fewer edges, fewer cycles. */
  lemma {:induction false} JumpFewer(g: Graph, h: Graph, n: string, k: nat)
    requires forall m :: Next(h, m).Some? ==> Next(h, m) == Next(g, m)
    ensures Jump(h, n, k).Some? ==> Jump(h, n, k) == Jump(g, n, k)
  {
    if k > 0 {
      JumpFewer(g, h, n, k - 1);
    }
  }

  lemma FewerAcyclic(g: Graph, h: Graph)
    requires Acyclic(g) && forall m :: Next(h, m).Some? ==> Next(h, m) == Next(g, m)
    ensures Acyclic(h)
  {
    forall n: string, k: nat | k > 0 ensures Jump(h, n, k) != Some(n) {
      JumpFewer(g, h, n, k);
    }
  }

  /** Nothing leads to an id that no row names. */
  lemma {:induction false} UnnamedUnreached(g: Graph, id: string, n: string, k: nat)
    requires Linked(g) && id !in g && n in g
    ensures Jump(g, n, k).Some? ==> Jump(g, n, k).value in g
  {
    if k > 0 {
      UnnamedUnreached(g, id, n, k - 1);
    }
  }

  lemma ApplyAcyclic(g: Graph, e: Edit)
    requires Acyclic(g) && Linked(g) && Accepted(g, e)
    ensures Acyclic(Apply(g, e)) && Linked(Apply(g, e))
  {
    match e
    case SetVia(id, via) => EdgeAcyclicIff(g, id, via);
    case ClearVia(id) => FewerAcyclic(g, Apply(g, e));
    case Delete(id) => FewerAcyclic(g, Apply(g, e));
    case Add(id, via) =>
      if via.Some? {
        forall k: nat ensures Jump(g, via.value, k) != Some(id) {
          UnnamedUnreached(g, id, via.value, k);
        }
        EdgeAcyclicIff(g, id, via.value);
      } else {
        FewerAcyclic(g, Apply(g, e));
      }
  }

  /** From a cycle-free table, every run of edits leaves it cycle-free. */
  lemma {:induction false} RunAcyclic(g: Graph, edits: seq<Edit>)
    requires Acyclic(g) && Linked(g)
    ensures Acyclic(Run(g, edits)) && Linked(Run(g, edits))
  {
    if edits != [] {
      var h := Run(g, edits[..|edits| - 1]);
      RunAcyclic(g, edits[..|edits| - 1]);
      if Accepted(h, edits[|edits| - 1]) {
        ApplyAcyclic(h, edits[|edits| - 1]);
      }
    }
  }

  // ---------------------------------------------------------------------- labels

  function CopyLabel(base: string, n: nat): string {
    if n == 1 then base + " (copy)" else base + " (copy " + Decimal.Format(n) + ")"
  }

  lemma CopyLabelsDiffer(base: string, m: nat, n: nat)
    requires 1 <= m && 1 <= n && m != n
    ensures CopyLabel(base, m) != CopyLabel(base, n)
  {
    var prefix := |base + " (copy "|;
    assert |" (copy"| == 6 && " (copy)"[6] == ')' && " (copy "[6] == ' ';
    if m == 1 || n == 1 {
      var other := if m == 1 then n else m;
      assert CopyLabel(base, 1)[|base| + 6] == ')';
      assert CopyLabel(base, other)[|base| + 6] == ' ';
    } else {
      var a, b := CopyLabel(base, m), CopyLabel(base, n);
      assert a[prefix..|a| - 1] == Decimal.Format(m);
      assert b[prefix..|b| - 1] == Decimal.Format(n);
      Decimal.FormatInjective(m, n);
    }
  }

  /** `unique_label`: the base if it is free or empty, else the first free numbered copy.
      The search ends because every copy tried is a different taken label. */
  method UniqueLabel(base: string, taken: set<string>) returns (r: string, ghost n: nat)
    ensures base == "" || base !in taken ==> r == base
    ensures base != "" && base in taken ==>
              && r == CopyLabel(base, n) && 1 <= n <= |taken| && r !in taken
              && forall k :: 1 <= k < n ==> CopyLabel(base, k) in taken
  {
    n := 0;
    if base == "" || base !in taken {
      return base, 0;
    }
    var copy := base + " (copy)";
    if copy !in taken {
      Nonempty(taken, base);
      return copy, 1;
    }
    var i := 2;
    ghost var tried := {base, CopyLabel(base, 1)};
    assert |base| != |CopyLabel(base, 1)|;
    while true
      invariant 2 <= i && tried <= taken && |tried| == i && base in tried
      invariant forall k :: 1 <= k < i ==> CopyLabel(base, k) in tried
      invariant forall x :: x in tried ==> x == base || exists k :: 1 <= k < i && x == CopyLabel(base, k)
      decreases |taken| - i
    {
      SubsetSize(tried, taken);
      var candidate := base + " (copy " + Decimal.Format(i) + ")";
      if candidate !in taken {
        return candidate, i;
      }
      assert candidate !in tried by {
        assert |candidate| > |base|;
        forall k | 1 <= k < i ensures candidate != CopyLabel(base, k) {
          CopyLabelsDiffer(base, k, i);
        }
      }
      assert candidate == CopyLabel(base, i);
      ghost var before := tried;
      tried := tried + {candidate};
      forall x | x in tried && x != base ensures exists k :: 1 <= k < i + 1 && x == CopyLabel(base, k) {
        if x in before {
          var k :| 1 <= k < i && x == CopyLabel(base, k);
        }
      }
      SubsetSize(tried, taken);
      i := i + 1;
    }
  }

  lemma Nonempty(s: set<string>, x: string)
    requires x in s
    ensures |s| >= 1
  {
  }

  /** The labels of copies. */
  lemma CopyLabelSays(base: string, n: nat)
    ensures CopyLabel(base, 1) == base + " (copy)"
    ensures n >= 2 ==> CopyLabel(base, n) == base + " (copy " + Decimal.Format(n) + ")"
  {
  }

  /** The graph of a chain: each id jumps where its last row says, and an id without a row
      is not in it. */
  lemma {:induction false} LookupLast(chain: seq<ProxyRef>, i: nat)
    requires i < |chain| && forall j :: i < j < |chain| ==> chain[j].sessionId != chain[i].sessionId
    ensures chain[i].sessionId in Lookup(chain) && Lookup(chain)[chain[i].sessionId] == chain[i].via
  {
    var n := |chain| - 1;
    if i < n {
      assert chain[..n][i] == chain[i];
      LookupLast(chain[..n], i);
    }
  }

  lemma {:induction false} LookupUnknown(chain: seq<ProxyRef>, id: string)
    requires forall i :: 0 <= i < |chain| ==> chain[i].sessionId != id
    ensures id !in Lookup(chain)
  {
    if chain != [] {
      LookupUnknown(chain[..|chain| - 1], id);
    }
  }
}
