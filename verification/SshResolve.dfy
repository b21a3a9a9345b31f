/**
 One entry per concrete host (`parse_expanded` and `resolve_entry` of ssh_config.rs),
 against the simple reading of ssh_config(5): go through the blocks in file order,
 take those that select the host, the first value of each option wins and identity
 files add up.
*/
module SshResolve {
  import opened Wrappers
  import opened Text
  import opened Sorting
  import opened SshPatterns
  import opened SshConfig

  datatype HostEntry = HostEntry(host: string, settings: Settings)

  /** Earlier settings win over later ones. */
  function Combine(a: Settings, b: Settings): Settings {
    Settings(if a.hostName.Some? then a.hostName else b.hostName,
             if a.user.Some? then a.user else b.user,
             if a.port.Some? then a.port else b.port,
             a.identityFiles + b.identityFiles,
             if a.preferred.Some? then a.preferred else b.preferred)
  }

  lemma CombineLaws(a: Settings, b: Settings, c: Settings)
    ensures Combine(Combine(a, b), c) == Combine(a, Combine(b, c))
    ensures Combine(NO_SETTINGS, a) == a == Combine(a, NO_SETTINGS)
  {
  }

  /** The settings of the blocks in `keep`, in file order, from block `i` on. */
  ghost function Gather(blocks: seq<RawBlock>, keep: set<nat>, i: nat := 0): Settings
    decreases |blocks| - i
  {
    if i >= |blocks| then NO_SETTINGS
    else Combine(if i in keep then blocks[i].settings else NO_SETTINGS, Gather(blocks, keep, i + 1))
  }

  ghost function Selecting(blocks: seq<RawBlock>, host: string): set<nat> {
    set i: nat | i < |blocks| && Selects(blocks[i].patterns, host)
  }

  /** The reference reading of ssh_config(5). */
  ghost function Reading(blocks: seq<RawBlock>, host: string): Settings {
    Gather(blocks, Selecting(blocks, host))
  }

  // ------------------------------------------------------------------- the code

  predicate Literal(b: RawBlock) {
    forall q :: q in b.patterns ==> !IsWildcard(q)
  }

  /** Membership in `wildcard_blocks`. */
  predicate Cascades(b: RawBlock) {
    (forall q :: q in b.patterns ==> IsWildcard(q)) || exists q :: q in b.patterns && IsWildcard(q)
  }

  /** The blocks `resolve_entry` takes: the host's own, and every cascading one that selects it. */
  ghost function Consulted(blocks: seq<RawBlock>, own: nat, host: string): set<nat> {
    set i: nat | i < |blocks| && (i == own || (Cascades(blocks[i]) && Selects(blocks[i].patterns, host)))
  }

  ghost function Resolved(blocks: seq<RawBlock>, own: nat, host: string): HostEntry {
    HostEntry(host, Gather(blocks, Consulted(blocks, own, host)))
  }

  predicate InFileOrder(blocks: seq<RawBlock>) {
    forall i :: 0 <= i < |blocks| ==> blocks[i].orderIndex == i
  }

  function OrderKey(blocks: seq<RawBlock>, i: nat): nat {
    if i < |blocks| then blocks[i].orderIndex else 0
  }

  /** Settings taken along a list of block indices. */
  ghost function Along(blocks: seq<RawBlock>, idx: seq<nat>, keep: set<nat>): Settings {
    if idx == [] then NO_SETTINGS
    else Combine(Along(blocks, idx[..|idx| - 1], keep), Taken(blocks, idx[|idx| - 1], keep))
  }

  ghost function Taken(blocks: seq<RawBlock>, i: nat, keep: set<nat>): Settings {
    if i < |blocks| && i in keep then blocks[i].settings else NO_SETTINGS
  }

  ghost predicate IsAscending(idx: seq<nat>) {
    forall i, j :: 0 <= i < j < |idx| ==> idx[i] < idx[j]
  }

  ghost predicate Covers(idx: seq<nat>, keep: set<nat>, hi: nat) {
    && IsAscending(idx)
    && (forall k :: 0 <= k < |idx| ==> idx[k] < hi)
    && (forall i :: i in keep && i < hi ==> i in idx)
    && |idx| <= hi
  }

  lemma {:induction false} AscendingBound(idx: seq<nat>, hi: nat)
    requires IsAscending(idx) && forall k :: 0 <= k < |idx| ==> idx[k] < hi
    ensures |idx| <= hi
    decreases |idx|
  {
    if idx != [] {
      var n := |idx| - 1;
      AscendingBound(idx[..n], idx[n]);
    }
  }

  lemma CoversLess(idx: seq<nat>, keep: set<nat>, hi: nat)
    requires Covers(idx, keep, hi) && hi > 0
    ensures
      if idx != [] && idx[|idx| - 1] == hi - 1 then Covers(idx[..|idx| - 1], keep, hi - 1)
      else Covers(idx, keep, hi - 1) && hi - 1 !in keep
  {
    var n := |idx| - 1;
    if idx != [] && idx[n] == hi - 1 {
      var front := idx[..n];
      forall i | i in keep && i < hi - 1 ensures i in front {
        var k :| 0 <= k < |idx| && idx[k] == i;
        assert front[k] == i;
      }
    } else {
      forall k | 0 <= k < |idx| ensures idx[k] < hi - 1 {
        assert k < n ==> idx[k] < idx[n];
      }
      assert hi - 1 !in idx;
      AscendingBound(idx, hi - 1);
    }
  }

  /** An ascending list that covers `keep` visits the kept blocks in file order. */
  lemma {:induction false} AlongPrefix(blocks: seq<RawBlock>, idx: seq<nat>, keep: set<nat>, hi: nat)
    requires hi <= |blocks| && Covers(idx, keep, hi)
    ensures Combine(Along(blocks, idx, keep), Gather(blocks, keep, hi)) == Gather(blocks, keep)
    decreases hi
  {
    var rest := Gather(blocks, keep, hi);
    if hi == 0 {
      assert idx == [];
      CombineLaws(rest, NO_SETTINGS, NO_SETTINGS);
    } else {
      CoversLess(idx, keep, hi);
      GatherStep(blocks, keep, hi - 1);
      if idx != [] && idx[|idx| - 1] == hi - 1 {
        var front := idx[..|idx| - 1];
        AlongPrefix(blocks, front, keep, hi - 1);
        CombineLaws(Along(blocks, front, keep), Taken(blocks, hi - 1, keep), rest);
      } else {
        AlongPrefix(blocks, idx, keep, hi - 1);
        CombineLaws(rest, NO_SETTINGS, NO_SETTINGS);
      }
    }
  }

  lemma GatherStep(blocks: seq<RawBlock>, keep: set<nat>, i: nat)
    requires i < |blocks|
    ensures Gather(blocks, keep, i) == Combine(Taken(blocks, i, keep), Gather(blocks, keep, i + 1))
  {
  }

  function InOrder(blocks: seq<RawBlock>): (nat, nat) -> bool {
    (a: nat, b: nat) => OrderKey(blocks, a) <= OrderKey(blocks, b)
  }

  ghost predicate Ranks(le: (nat, nat) -> bool, idx: seq<nat>) {
    forall i, j :: 0 <= i < |idx| && 0 <= j < |idx| && idx[i] != idx[j] && le(idx[i], idx[j]) ==> idx[i] < idx[j]
  }

  lemma SortRanked(idx: seq<nat>, le: (nat, nat) -> bool)
    requires TotalPreorder(le) && Ranks(le, idx) && forall i, j :: 0 <= i < j < |idx| ==> idx[i] != idx[j]
    ensures IsAscending(Sort(idx, le))
    ensures forall i :: i in Sort(idx, le) <==> i in idx
  {
    var s := Sort(idx, le);
    SortOk(idx, le);
    forall i ensures i in s <==> i in idx {
      SortMembers(idx, le, i);
    }
    forall i, j | 0 <= i < j < |s| ensures s[i] < s[j] {
      SortDistinct(idx, le, i, j);
      assert s[i] in s && s[j] in s;
      assert s[i] in idx && s[j] in idx;
    }
  }

  /** Sorting distinct block references by their order index puts them in file order. */
  lemma SortAscends(blocks: seq<RawBlock>, idx: seq<nat>)
    requires InFileOrder(blocks) && forall k :: 0 <= k < |idx| ==> idx[k] < |blocks|
    requires forall i, j :: 0 <= i < j < |idx| ==> idx[i] != idx[j]
    ensures IsAscending(Sort(idx, InOrder(blocks)))
    ensures forall i :: i in Sort(idx, InOrder(blocks)) <==> i in idx
  {
    SortRanked(idx, InOrder(blocks));
  }

  /** `w` lists the cascading blocks, each once. */
  ghost predicate WildcardRefs(blocks: seq<RawBlock>, w: seq<nat>) {
    Picks(w, CascadingIn(blocks), |blocks|)
  }

  ghost function CascadingIn(blocks: seq<RawBlock>): nat -> bool {
    (i: nat) => i < |blocks| && Cascades(blocks[i])
  }

  /** `w` lists the numbers below `n` that satisfy `p`, each once. */
  ghost predicate Picks(w: seq<nat>, p: nat -> bool, n: nat) {
    && (forall k :: 0 <= k < |w| ==> w[k] < n && p(w[k]))
    && (forall i: nat :: i < n && p(i) ==> i in w)
    && (forall i, j :: 0 <= i < j < |w| ==> w[i] != w[j])
  }

  /** The cascading blocks among the first `n`. */
  function CascadingRefs(blocks: seq<RawBlock>, n: nat): seq<nat>
    requires n <= |blocks|
  {
    if n == 0 then []
    else CascadingRefs(blocks, n - 1) + if Cascades(blocks[n - 1]) then [n - 1] else []
  }

  lemma {:induction false} CascadingRefsOk(blocks: seq<RawBlock>, n: nat, p: nat -> bool)
    requires n <= |blocks| && forall i: nat :: i < n ==> p(i) == Cascades(blocks[i])
    ensures Picks(CascadingRefs(blocks, n), p, n)
  {
    if n > 0 {
      CascadingRefsOk(blocks, n - 1, p);
      PicksNext(CascadingRefs(blocks, n - 1), p, n - 1);
    }
  }

  lemma PicksNext(w: seq<nat>, p: nat -> bool, n: nat)
    requires Picks(w, p, n)
    ensures Picks(w + if p(n) then [n] else [], p, n + 1)
  {
  }

  /** The references `resolve_entry` walks over: file order, the own block included. */
  function OrderedRefs(blocks: seq<RawBlock>, w: seq<nat>, own: nat): seq<nat> {
    Sort(if own in w then w else w + [own], InOrder(blocks))
  }

  lemma OrderedRefsOk(blocks: seq<RawBlock>, w: seq<nat>, own: nat, host: string)
    requires InFileOrder(blocks) && own < |blocks| && WildcardRefs(blocks, w)
    ensures
      var s := OrderedRefs(blocks, w, own);
      && IsAscending(s)
      && (forall k :: 0 <= k < |s| ==> s[k] < |blocks| && (s[k] == own || Cascades(blocks[s[k]])))
      && (forall i :: i in Consulted(blocks, own, host) ==> i in s)
  {
    var u := if own in w then w else w + [own];
    SortAscends(blocks, u);
    var s := OrderedRefs(blocks, w, own);
    forall k | 0 <= k < |s| ensures s[k] < |blocks| && (s[k] == own || Cascades(blocks[s[k]])) {
      assert s[k] in s;
      assert s[k] in u;
      assert s[k] in w ==> CascadingIn(blocks)(s[k]);
    }
  }

  /** `resolve_entry`. */
  method ResolveEntry(blocks: seq<RawBlock>, host: string, own: nat, wildcards: seq<nat>) returns (e: HostEntry)
    requires InFileOrder(blocks) && own < |blocks| && WildcardRefs(blocks, wildcards)
    ensures e == Resolved(blocks, own, host)
  {
    var ordered := OrderedRefs(blocks, wildcards, own);
    OrderedRefsOk(blocks, wildcards, own, host);
    var settings := Walk(blocks, host, own, ordered);
    AscendingBound(ordered, |blocks|);
    AlongPrefix(blocks, ordered, Consulted(blocks, own, host), |blocks|);
    CombineLaws(settings, settings, settings);
    e := HostEntry(host, settings);
  }

  /** Its loop over the ordered references. */
  method Walk(blocks: seq<RawBlock>, host: string, own: nat, ordered: seq<nat>) returns (settings: Settings)
    requires forall k :: 0 <= k < |ordered| ==>
               ordered[k] < |blocks| && (ordered[k] == own || Cascades(blocks[ordered[k]]))
    ensures settings == Along(blocks, ordered, Consulted(blocks, own, host))
  {
    settings := NO_SETTINGS;
    ghost var keep := Consulted(blocks, own, host);
    for k := 0 to |ordered|
      invariant settings == Along(blocks, ordered[..k], keep)
    {
      var i := ordered[k];
      assert ordered[..k + 1][..k] == ordered[..k];
      if i != own {
        var matches := Matches(blocks[i].patterns, host);
        if !matches {
          CombineLaws(settings, settings, settings);
          continue;
        }
      }
      settings := FillUnset(settings, blocks[i].settings);
    }
    assert ordered[..|ordered|] == ordered;
  }

  /** The body of that loop: fill each unset option, add the identity files. */
  method FillUnset(settings: Settings, b: Settings) returns (r: Settings)
    ensures r == Combine(settings, b)
  {
    r := settings;
    if r.hostName.None? {
      r := r.(hostName := b.hostName);
    }
    if r.user.None? {
      r := r.(user := b.user);
    }
    if r.port.None? {
      r := r.(port := b.port);
    }
    if r.preferred.None? {
      r := r.(preferred := b.preferred);
    }
    r := r.(identityFiles := r.identityFiles + b.identityFiles);
  }

  datatype ConcreteHost = ConcreteHost(block: nat, host: string)

  function LiteralHosts(i: nat, patterns: seq<string>): seq<ConcreteHost> {
    FlatMap((q: string) => if IsWildcard(q) then [] else [ConcreteHost(i, q)], patterns)
  }

  /** The concrete hosts of the first `n` blocks, in file order. */
  function ConcreteHosts(blocks: seq<RawBlock>, n: nat): seq<ConcreteHost>
    requires n <= |blocks|
  {
    if n == 0 then [] else ConcreteHosts(blocks, n - 1) + LiteralHosts(n - 1, blocks[n - 1].patterns)
  }

  lemma {:induction false} ConcreteHostsOk(blocks: seq<RawBlock>, n: nat, c: ConcreteHost)
    requires n <= |blocks|
    ensures c in ConcreteHosts(blocks, n) <==>
            c.block < n && c.host in blocks[c.block].patterns && !IsWildcard(c.host)
  {
    if n > 0 {
      ConcreteHostsOk(blocks, n - 1, c);
      LiteralHostsOk(n - 1, blocks[n - 1].patterns, c);
    }
  }

  lemma {:induction false} LiteralHostsOk(i: nat, patterns: seq<string>, c: ConcreteHost)
    ensures c in LiteralHosts(i, patterns) <==> c.block == i && c.host in patterns && !IsWildcard(c.host)
  {
    if patterns != [] {
      LiteralHostsOk(i, patterns[1..], c);
    }
  }

  /** One entry per concrete host, each resolved against its own block. */
  ghost predicate EntriesOk(blocks: seq<RawBlock>, entries: seq<HostEntry>) {
    var hosts := ConcreteHosts(blocks, |blocks|);
    && |entries| == |hosts|
    && forall k :: 0 <= k < |hosts| ==> entries[k] == Resolved(blocks, hosts[k].block, hosts[k].host)
  }

  /** `parse_expanded`. */
  method ParseExpanded(content: string) returns (entries: seq<HostEntry>)
    ensures EntriesOk(Blocks(Directives(content)), entries)
  {
    var blocks := ParseBlocks(content);
    entries := ResolveAll(blocks);
  }

  method ResolveAll(blocks: seq<RawBlock>) returns (entries: seq<HostEntry>)
    requires InFileOrder(blocks)
    ensures EntriesOk(blocks, entries)
  {
    var wildcards, concrete := Classify(blocks);
    entries := [];
    for k := 0 to |concrete|
      invariant |entries| == k
      invariant forall j :: 0 <= j < k ==> entries[j] == Resolved(blocks, concrete[j].block, concrete[j].host)
    {
      ConcreteHostsOk(blocks, |blocks|, concrete[k]);
      var e := ResolveEntry(blocks, concrete[k].host, concrete[k].block, wildcards);
      entries := entries + [e];
    }
  }

  /** The first loop of `parse_expanded`: which blocks cascade, which hosts are concrete. */
  method Classify(blocks: seq<RawBlock>) returns (wildcards: seq<nat>, concrete: seq<ConcreteHost>)
    ensures WildcardRefs(blocks, wildcards)
    ensures concrete == ConcreteHosts(blocks, |blocks|)
  {
    wildcards, concrete := [], [];
    for i := 0 to |blocks|
      invariant concrete == ConcreteHosts(blocks, i)
      invariant wildcards == CascadingRefs(blocks, i)
    {
      var found, cascades := ClassifyBlock(i, blocks[i]);
      concrete := concrete + found;
      if cascades {
        wildcards := wildcards + [i];
      }
    }
    CascadingRefsOk(blocks, |blocks|, CascadingIn(blocks));
  }

  method ClassifyBlock(i: nat, block: RawBlock) returns (found: seq<ConcreteHost>, cascades: bool)
    ensures found == LiteralHosts(i, block.patterns)
    ensures cascades <==> Cascades(block)
  {
    var anyConcrete, anyWildcard;
    found, anyConcrete, anyWildcard := LiteralsOf(i, block.patterns);
    cascades := !anyConcrete || anyWildcard;
  }

  method LiteralsOf(
      i: nat, patterns: seq<string>)
    returns (found: seq<ConcreteHost>, anyConcrete: bool, anyWildcard: bool)
    ensures found == LiteralHosts(i, patterns)
    ensures anyConcrete <==> exists q :: q in patterns && !IsWildcard(q)
    ensures anyWildcard <==> exists q :: q in patterns && IsWildcard(q)
  {
    found, anyConcrete, anyWildcard := [], false, false;
    for k := 0 to |patterns|
      invariant found == LiteralHosts(i, patterns[..k])
      invariant anyConcrete <==> exists q :: q in patterns[..k] && !IsWildcard(q)
      invariant anyWildcard <==> exists q :: q in patterns[..k] && IsWildcard(q)
    {
      FlatMapNext((q: string) => if IsWildcard(q) then [] else [ConcreteHost(i, q)], patterns, k);
      assert patterns[..k + 1] == patterns[..k] + [patterns[k]];
      if IsWildcard(patterns[k]) {
        anyWildcard := true;
      } else {
        anyConcrete := true;
        found := found + [ConcreteHost(i, patterns[k])];
      }
    }
    assert patterns[..|patterns|] == patterns;
  }

  // ------------------------------------------------------- against the reading

  /** The host's own block does not negate it, and no other purely literal block names it. */
  ghost predicate Unshadowed(blocks: seq<RawBlock>, own: nat, host: string)
    requires own < |blocks|
  {
    && !Excludes(blocks[own].patterns, host)
    && forall j :: 0 <= j < |blocks| && j != own && Literal(blocks[j]) ==> host !in blocks[j].patterns
  }

  lemma UnshadowedIff(blocks: seq<RawBlock>, own: nat, host: string)
    requires own < |blocks| && host in blocks[own].patterns && !IsWildcard(host)
    ensures Unshadowed(blocks, own, host) <==> Consulted(blocks, own, host) == Selecting(blocks, host)
  {
    LiteralGlob(host, 0, host, 0);
    assert Glob(host, host);
    assert Selects(blocks[own].patterns, host) <==> !Excludes(blocks[own].patterns, host);
    assert own in Consulted(blocks, own, host);
    forall j: nat | j < |blocks| && j != own
      ensures (j in Consulted(blocks, own, host) <==> j in Selecting(blocks, host)) <==>
              !(Literal(blocks[j]) && host in blocks[j].patterns)
    {
      if Literal(blocks[j]) {
        LiteralsSelect(blocks[j].patterns, host);
        if host in blocks[j].patterns {
          assert !Cascades(blocks[j]);
        }
      }
    }
    if Unshadowed(blocks, own, host) {
      assert forall j :: j in Consulted(blocks, own, host) <==> j in Selecting(blocks, host);
    }
  }

  ghost predicate SamePatterns(a: seq<RawBlock>, b: seq<RawBlock>) {
    |a| == |b| && forall i :: 0 <= i < |a| ==> a[i].patterns == b[i].patterns
  }

  /** `blocks` with one identity file in block `j` and nothing else set. */
  function Probe(blocks: seq<RawBlock>, j: nat): seq<RawBlock> {
    seq(|blocks|, i requires 0 <= i < |blocks| =>
      blocks[i].(settings := if i == j then NO_SETTINGS.(identityFiles := [""]) else NO_SETTINGS))
  }

  lemma {:induction false} ProbeGather(blocks: seq<RawBlock>, j: nat, keep: set<nat>, i: nat)
    requires j < |blocks| && i <= |blocks|
    ensures Gather(Probe(blocks, j), keep, i).identityFiles == if i <= j && j in keep then [""] else []
    decreases |blocks| - i
  {
    if i < |blocks| {
      ProbeGather(blocks, j, keep, i + 1);
    }
  }

  /** Whatever the blocks set, the code resolves a concrete host as the reading of
      ssh_config(5) does, exactly when the host is not shadowed. */
  lemma ResolvesAsReadIff(blocks: seq<RawBlock>, own: nat, host: string)
    requires own < |blocks| && host in blocks[own].patterns && !IsWildcard(host)
    ensures Unshadowed(blocks, own, host) <==>
            forall bs :: SamePatterns(blocks, bs) ==> Resolved(bs, own, host).settings == Reading(bs, host)
  {
    UnshadowedIff(blocks, own, host);
    if Unshadowed(blocks, own, host) {
      forall bs | SamePatterns(blocks, bs) ensures Resolved(bs, own, host).settings == Reading(bs, host) {
        SameSets(blocks, bs, own, host);
      }
    } else {
      var j :| j in Consulted(blocks, own, host) + Selecting(blocks, host) &&
               !(j in Consulted(blocks, own, host) && j in Selecting(blocks, host));
      var bs := Probe(blocks, j);
      SameSets(blocks, bs, own, host);
      ProbeGather(blocks, j, Consulted(blocks, own, host), 0);
      ProbeGather(blocks, j, Selecting(blocks, host), 0);
      assert SamePatterns(blocks, bs);
    }
  }

  /** Every entry of an unshadowed host holds what the reading of ssh_config(5) gives it. */
  lemma EntriesAsRead(blocks: seq<RawBlock>, entries: seq<HostEntry>, k: nat)
    requires EntriesOk(blocks, entries) && k < |entries|
    ensures
      var c := ConcreteHosts(blocks, |blocks|)[k];
      && entries[k].host == c.host && c.block < |blocks| && c.host in blocks[c.block].patterns
      && (Unshadowed(blocks, c.block, c.host) ==> entries[k].settings == Reading(blocks, c.host))
  {
    var c := ConcreteHosts(blocks, |blocks|)[k];
    ConcreteHostsOk(blocks, |blocks|, c);
    UnshadowedIff(blocks, c.block, c.host);
  }

  lemma SameSets(a: seq<RawBlock>, b: seq<RawBlock>, own: nat, host: string)
    requires SamePatterns(a, b)
    ensures Consulted(a, own, host) == Consulted(b, own, host) && Selecting(a, host) == Selecting(b, host)
  {
    forall i | 0 <= i < |a| ensures Cascades(a[i]) == Cascades(b[i]) {
      assert a[i].patterns == b[i].patterns;
    }
  }

  /** A second literal block for the same host is never consulted, so its `User` is lost. */
  lemma SecondBlockIsLost()
    ensures
      var blocks := [RawBlock(0, ["a"], NO_SETTINGS), RawBlock(1, ["a"], NO_SETTINGS.(user := Some("u")))];
      Resolved(blocks, 0, "a").settings.user == None && Reading(blocks, "a").user == Some("u")
  {
    var blocks := [RawBlock(0, ["a"], NO_SETTINGS), RawBlock(1, ["a"], NO_SETTINGS.(user := Some("u")))];
    assert "a"[0] == 'a' && "!"[0] == '!' && !IsWildcard("a");
    LiteralsSelect(["a"], "a");
    assert !Cascades(blocks[1]) by { assert "a" in blocks[1].patterns; }
    assert 1 !in Consulted(blocks, 0, "a") && 1 in Selecting(blocks, "a");
    assert Gather(blocks, Consulted(blocks, 0, "a"), 2) == NO_SETTINGS;
    assert Gather(blocks, Selecting(blocks, "a"), 2) == NO_SETTINGS;
    assert Gather(blocks, Consulted(blocks, 0, "a"), 1).user == None;
    assert Gather(blocks, Selecting(blocks, "a"), 1).user == Some("u");
  }

  // --------------------------------------------------------------- first value wins

  /** Of two blocks the earlier one's options count, the later one's only where the earlier
      has none; identity files add up in order. */
  lemma EarlierWins(a: Settings, b: Settings)
    ensures Combine(a, b).hostName == if a.hostName.Some? then a.hostName else b.hostName
    ensures Combine(a, b).user == if a.user.Some? then a.user else b.user
    ensures Combine(a, b).port == if a.port.Some? then a.port else b.port
    ensures Combine(a, b).preferred == if a.preferred.Some? then a.preferred else b.preferred
    ensures Combine(a, b).identityFiles == a.identityFiles + b.identityFiles
  {
  }

  /** The reading of a host takes each option from the first selecting block that sets it. */
  lemma {:induction false} ReadingIsFirst<T>(
      blocks: seq<RawBlock>, keep: set<nat>, get: Settings -> Option<T>, i: nat, first: nat)
    requires get(NO_SETTINGS) == None
    requires forall a, b :: get(Combine(a, b)) == if get(a).Some? then get(a) else get(b)
    requires i <= first < |blocks| && first in keep && get(blocks[first].settings).Some?
    requires forall j :: i <= j < first && j in keep ==> get(blocks[j].settings) == None
    ensures get(Gather(blocks, keep, i)) == get(blocks[first].settings)
    decreases |blocks| - i
  {
    GatherStep(blocks, keep, i);
    if i < first {
      ReadingIsFirst(blocks, keep, get, i + 1, first);
    }
  }

  /** For instance its user. */
  lemma UserOfReading(blocks: seq<RawBlock>, host: string, first: nat)
    requires first < |blocks| && Selects(blocks[first].patterns, host) && blocks[first].settings.user.Some?
    requires forall j :: 0 <= j < first && Selects(blocks[j].patterns, host) ==> blocks[j].settings.user == None
    ensures Reading(blocks, host).user == blocks[first].settings.user
  {
    ReadingIsFirst(blocks, Selecting(blocks, host), (s: Settings) => s.user, 0, first);
  }
}
