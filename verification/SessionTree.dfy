/**
 The sidebar tree (session_tree.rs): folding sessions and empty folders into a forest,
 sorting every level, counting leaves.  Nested vectors are values here.
*/
module SessionTree {
  import opened Wrappers
  import opened Text
  import opened Sorting
  import opened Lex

  datatype Session = Session(id: string, title: string, folder: string, displayName: string)

  datatype Node =
    | Folder(name: string, fullPath: string, count: nat, children: seq<Node>)
    | Leaf(name: string, fullPath: string, id: string)

  // --------------------------------------------------------------------- building

  /** `current_path` after one more segment. */
  function Extend(path: string, part: string): string {
    if path == "" then part else path + "/" + part
  }

  function FolderIndex(nodes: seq<Node>, name: string): (i: nat)
    ensures i <= |nodes|
    ensures i < |nodes| ==> nodes[i].Folder? && nodes[i].name == name
    ensures forall j :: 0 <= j < i ==> !(nodes[j].Folder? && nodes[j].name == name)
  {
    if nodes == [] || (nodes[0].Folder? && nodes[0].name == name) then 0 else 1 + FolderIndex(nodes[1..], name)
  }

  /** `ensure_folder_path` from a level whose path is `path`, then push `leaf` if there is one. */
  function Place(nodes: seq<Node>, parts: seq<string>, path: string, leaf: Option<Node>): seq<Node>
    decreases |parts|
  {
    if parts == [] then (if leaf.Some? then nodes + [leaf.value] else nodes)
    else
      var here := Extend(path, parts[0]);
      var i := FolderIndex(nodes, parts[0]);
      if i < |nodes| then nodes[i := nodes[i].(children := Place(nodes[i].children, parts[1..], here, leaf))]
      else nodes + [Folder(parts[0], here, 0, Place([], parts[1..], here, leaf))]
  }

  /** The folder names a session lies under. */
  function Home(s: Session): seq<string> {
    if s.folder == "" then [] else Split(s.folder, '/')
  }

  function LeafOf(s: Session): Node {
    Leaf(if s.title == "" then s.displayName else s.title,
         if s.folder == "" then s.title else s.folder + "/" + s.title,
         s.id)
  }

  function AddFolders(root: seq<Node>, paths: seq<string>): seq<Node> {
    if paths == [] then root
    else Place(AddFolders(root, paths[..|paths| - 1]), Split(paths[|paths| - 1], '/'), "", None)
  }

  function AddSessions(root: seq<Node>, sessions: seq<Session>): seq<Node> {
    if sessions == [] then root
    else
      var s := sessions[|sessions| - 1];
      Place(AddSessions(root, sessions[..|sessions| - 1]), Home(s), "", Some(LeafOf(s)))
  }

  // ---------------------------------------------------------------------- sorting

  predicate NodeLe(lower: string -> string, a: Node, b: Node) {
    if a.Folder? && b.Leaf? then true
    else if a.Leaf? && b.Folder? then false
    else StringLe(lower(a.name), lower(b.name))
  }

  function ByKindAndName(lower: string -> string): (Node, Node) -> bool {
    (a, b) => NodeLe(lower, a, b)
  }

  function CountSessions(nodes: seq<Node>): nat {
    if nodes == [] then 0 else CountNode(nodes[0]) + CountSessions(nodes[1..])
  }

  function CountNode(n: Node): nat {
    match n
    case Leaf(_, _, _) => 1
    case Folder(_, _, _, children) => CountSessions(children)
  }

  /** `sort_tree`.  The order of a level looks only at kind and name, so sorting the
      levels below first makes no difference. */
  function SortTree(nodes: seq<Node>, lower: string -> string): seq<Node>
    decreases nodes, 2
  {
    Sort(SortEach(nodes, lower), ByKindAndName(lower))
  }

  function SortEach(nodes: seq<Node>, lower: string -> string): (r: seq<Node>)
    ensures |r| == |nodes|
    decreases nodes, 1
  {
    if nodes == [] then [] else [SortNode(nodes[0], lower)] + SortEach(nodes[1..], lower)
  }

  function SortNode(n: Node, lower: string -> string): Node
    decreases n, 3
  {
    match n
    case Leaf(_, _, _) => n
    case Folder(name, fullPath, _, children) =>
      var sorted := SortTree(children, lower);
      Folder(name, fullPath, CountSessions(sorted), sorted)
  }

  /** What `build` returns. */
  function Tree(sessions: seq<Session>, emptyFolders: seq<string>, lower: string -> string): seq<Node> {
    SortTree(AddSessions(AddFolders([], emptyFolders), sessions), lower)
  }

  /** `build`. */
  method Build(sessions: seq<Session>, emptyFolders: seq<string>, lower: string -> string) returns (root: seq<Node>)
    ensures root == Tree(sessions, emptyFolders, lower)
  {
    root := [];
    for i := 0 to |emptyFolders|
      invariant root == AddFolders([], emptyFolders[..i])
    {
      assert emptyFolders[..i + 1][..i] == emptyFolders[..i];
      root := Place(root, Split(emptyFolders[i], '/'), "", None);
    }
    assert emptyFolders[..|emptyFolders|] == emptyFolders;
    ghost var folders := root;
    for i := 0 to |sessions|
      invariant root == AddSessions(folders, sessions[..i])
    {
      assert sessions[..i + 1][..i] == sessions[..i];
      root := Place(root, Home(sessions[i]), "", Some(LeafOf(sessions[i])));
    }
    assert sessions[..|sessions|] == sessions;
    root := SortTree(root, lower);
  }

  // ------------------------------------------------------------- leaves, by counting

  /** How often `leaf` hangs directly below the folders named `at`. */
  function LeafCount(nodes: seq<Node>, at: seq<string>, leaf: Node): nat
    decreases nodes, 1
  {
    if nodes == [] then 0 else LeafCountIn(nodes[0], at, leaf) + LeafCount(nodes[1..], at, leaf)
  }

  function LeafCountIn(n: Node, at: seq<string>, leaf: Node): nat
    decreases n, 2
  {
    match n
    case Leaf(_, _, _) => if at == [] && n == leaf then 1 else 0
    case Folder(name, _, _, children) => if at != [] && name == at[0] then LeafCount(children, at[1..], leaf) else 0
  }

  lemma {:induction false} LeafCountConcat(a: seq<Node>, b: seq<Node>, at: seq<string>, leaf: Node)
    ensures LeafCount(a + b, at, leaf) == LeafCount(a, at, leaf) + LeafCount(b, at, leaf)
    decreases |a|
  {
    if a == [] {
      assert a + b == b;
    } else {
      LeafCountConcat(a[1..], b, at, leaf);
      assert (a + b)[1..] == a[1..] + b;
    }
  }

  lemma {:induction false} LeafCountUpdate(nodes: seq<Node>, i: nat, n: Node, at: seq<string>, leaf: Node)
    requires i < |nodes|
    ensures LeafCount(nodes[i := n], at, leaf) ==
            LeafCount(nodes, at, leaf) - LeafCountIn(nodes[i], at, leaf) + LeafCountIn(n, at, leaf)
    decreases |nodes|
  {
    if i > 0 {
      LeafCountUpdate(nodes[1..], i - 1, n, at, leaf);
      assert nodes[i := n][1..] == nodes[1..][i - 1 := n];
    } else {
      assert nodes[0 := n][1..] == nodes[1..];
    }
  }

  lemma LeafCountOne(n: Node, at: seq<string>, leaf: Node)
    ensures LeafCount([n], at, leaf) == LeafCountIn(n, at, leaf)
  {
  }

  /** Placing adds exactly the given leaf, exactly where it belongs. */
  lemma {:induction false} PlaceLeaves(
      nodes: seq<Node>, parts: seq<string>, path: string, add: Option<Node>, at: seq<string>, leaf: Node)
    requires leaf.Leaf? && (add.Some? ==> add.value.Leaf?)
    ensures LeafCount(Place(nodes, parts, path, add), at, leaf) ==
            LeafCount(nodes, at, leaf) + if add == Some(leaf) && at == parts then 1 else 0
    decreases |parts|
  {
    if parts == [] {
      if add.Some? {
        LeafCountConcat(nodes, [add.value], at, leaf);
        LeafCountOne(add.value, at, leaf);
      }
    } else {
      var here := Extend(path, parts[0]);
      var i := FolderIndex(nodes, parts[0]);
      if at != [] {
        assert (at == parts) == (at[0] == parts[0] && at[1..] == parts[1..]) by {
          assert at == [at[0]] + at[1..] && parts == [parts[0]] + parts[1..];
        }
      }
      var below := if at == [] then [] else at[1..];
      if i < |nodes| {
        PlaceLeaves(nodes[i].children, parts[1..], here, add, below, leaf);
        LeafCountUpdate(nodes, i, nodes[i].(children := Place(nodes[i].children, parts[1..], here, add)), at, leaf);
      } else {
        PlaceLeaves([], parts[1..], here, add, below, leaf);
        var added := Folder(parts[0], here, 0, Place([], parts[1..], here, add));
        LeafCountConcat(nodes, [added], at, leaf);
        LeafCountOne(added, at, leaf);
      }
    }
  }

  lemma {:induction false} InsertLeaves(
      x: Node, nodes: seq<Node>, le: (Node, Node) -> bool, at: seq<string>, leaf: Node)
    ensures LeafCount(Insert(x, nodes, le), at, leaf) == LeafCountIn(x, at, leaf) + LeafCount(nodes, at, leaf)
    decreases |nodes|
  {
    if nodes == [] || !le(nodes[0], x) {
      LeafCountConcat([x], nodes, at, leaf);
      LeafCountOne(x, at, leaf);
    } else {
      InsertLeaves(x, nodes[1..], le, at, leaf);
      LeafCountConcat([nodes[0]], Insert(x, nodes[1..], le), at, leaf);
      LeafCountOne(nodes[0], at, leaf);
    }
  }

  lemma {:induction false} SortLeaves(nodes: seq<Node>, le: (Node, Node) -> bool, at: seq<string>, leaf: Node)
    ensures LeafCount(Sort(nodes, le), at, leaf) == LeafCount(nodes, at, leaf)
    decreases |nodes|
  {
    if nodes != [] {
      var front, last := nodes[..|nodes| - 1], nodes[|nodes| - 1];
      SortLeaves(front, le, at, leaf);
      InsertLeaves(last, Sort(front, le), le, at, leaf);
      LeafCountConcat(front, [last], at, leaf);
      LeafCountOne(last, at, leaf);
      assert nodes == front + [last];
    }
  }

  lemma {:induction false} SortTreeLeaves(nodes: seq<Node>, lower: string -> string, at: seq<string>, leaf: Node)
    requires leaf.Leaf?
    ensures LeafCount(SortTree(nodes, lower), at, leaf) == LeafCount(nodes, at, leaf)
    decreases nodes, 2
  {
    SortLeaves(SortEach(nodes, lower), ByKindAndName(lower), at, leaf);
    SortEachLeaves(nodes, lower, at, leaf);
  }

  lemma {:induction false} SortEachLeaves(nodes: seq<Node>, lower: string -> string, at: seq<string>, leaf: Node)
    requires leaf.Leaf?
    ensures LeafCount(SortEach(nodes, lower), at, leaf) == LeafCount(nodes, at, leaf)
    decreases nodes, 1
  {
    if nodes != [] {
      if nodes[0].Folder? && at != [] {
        SortTreeLeaves(nodes[0].children, lower, at[1..], leaf);
      }
      SortEachLeaves(nodes[1..], lower, at, leaf);
      LeafCountConcat([SortNode(nodes[0], lower)], SortEach(nodes[1..], lower), at, leaf);
      LeafCountOne(SortNode(nodes[0], lower), at, leaf);
    }
  }

  /** Number of sessions that are `leaf` under the folders `at`. */
  function Expected(sessions: seq<Session>, at: seq<string>, leaf: Node): nat {
    if sessions == [] then 0
    else
      var s := sessions[|sessions| - 1];
      Expected(sessions[..|sessions| - 1], at, leaf) + if Home(s) == at && LeafOf(s) == leaf then 1 else 0
  }

  lemma {:induction false} AddFoldersLeaves(paths: seq<string>, at: seq<string>, leaf: Node)
    requires leaf.Leaf?
    ensures LeafCount(AddFolders([], paths), at, leaf) == 0
  {
    if paths != [] {
      AddFoldersLeaves(paths[..|paths| - 1], at, leaf);
      PlaceLeaves(AddFolders([], paths[..|paths| - 1]), Split(paths[|paths| - 1], '/'), "", None, at, leaf);
    }
  }

  lemma {:induction false} AddSessionsLeaves(root: seq<Node>, sessions: seq<Session>, at: seq<string>, leaf: Node)
    requires leaf.Leaf?
    ensures LeafCount(AddSessions(root, sessions), at, leaf) == LeafCount(root, at, leaf) + Expected(sessions, at, leaf)
  {
    if sessions != [] {
      var s := sessions[|sessions| - 1];
      AddSessionsLeaves(root, sessions[..|sessions| - 1], at, leaf);
      PlaceLeaves(AddSessions(root, sessions[..|sessions| - 1]), Home(s), "", Some(LeafOf(s)), at, leaf);
    }
  }

  /** Every session is a leaf once, under its own folder path, and no other leaf exists. */
  lemma SessionsConserved(
      sessions: seq<Session>, emptyFolders: seq<string>, lower: string -> string, at: seq<string>, leaf: Node)
    requires leaf.Leaf?
    ensures LeafCount(Tree(sessions, emptyFolders, lower), at, leaf) == Expected(sessions, at, leaf)
  {
    var folders := AddFolders([], emptyFolders);
    AddFoldersLeaves(emptyFolders, at, leaf);
    AddSessionsLeaves(folders, sessions, at, leaf);
    SortTreeLeaves(AddSessions(folders, sessions), lower, at, leaf);
  }

  // ---------------------------------------------------------------- order of sorting

  lemma {:induction false} SortEachConcat(a: seq<Node>, b: seq<Node>, lower: string -> string)
    ensures SortEach(a + b, lower) == SortEach(a, lower) + SortEach(b, lower)
    decreases |a|
  {
    if a == [] {
      assert a + b == b;
    } else {
      SortEachConcat(a[1..], b, lower);
      assert (a + b)[1..] == a[1..] + b;
      ConcatAssoc([SortNode(a[0], lower)], SortEach(a[1..], lower), SortEach(b, lower));
    }
  }

  lemma SortNodeKeepsKey(n: Node, lower: string -> string)
    ensures SortNode(n, lower).Folder? == n.Folder? && SortNode(n, lower).name == n.name
  {
  }

  lemma {:induction false} InsertEach(x: Node, nodes: seq<Node>, lower: string -> string)
    ensures Insert(SortNode(x, lower), SortEach(nodes, lower), ByKindAndName(lower)) ==
            SortEach(Insert(x, nodes, ByKindAndName(lower)), lower)
    decreases |nodes|
  {
    var le := ByKindAndName(lower);
    if nodes == [] {
      assert [x][1..] == [] && [x] + [] == [x];
    } else {
      SortNodeKeepsKey(nodes[0], lower);
      SortNodeKeepsKey(x, lower);
      assert SortEach(nodes, lower)[0] == SortNode(nodes[0], lower);
      assert SortEach(nodes, lower)[1..] == SortEach(nodes[1..], lower);
      if !le(nodes[0], x) {
        assert ([x] + nodes)[1..] == nodes;
      } else {
        InsertEach(x, nodes[1..], lower);
        assert ([nodes[0]] + Insert(x, nodes[1..], le))[1..] == Insert(x, nodes[1..], le);
      }
    }
  }

  /** Sorting a level and then its folders, as `sort_tree` does, gives the same. */
  lemma {:induction false} SortLevelFirst(nodes: seq<Node>, lower: string -> string)
    ensures SortEach(Sort(nodes, ByKindAndName(lower)), lower) == SortTree(nodes, lower)
    decreases |nodes|
  {
    var le := ByKindAndName(lower);
    if nodes != [] {
      var front, last := nodes[..|nodes| - 1], nodes[|nodes| - 1];
      SortLevelFirst(front, lower);
      InsertEach(last, Sort(front, le), lower);
      SortEachConcat(front, [last], lower);
      assert nodes == front + [last] && [last][1..] == [];
      assert SortEach([last], lower) == [SortNode(last, lower)];
      var each := SortEach(nodes, lower);
      assert each[..|each| - 1] == SortEach(front, lower);
    }
  }

  // ------------------------------------------------------------------ sorted, counted

  /** Every level has its folders first, then is in case-insensitive name order. */
  ghost predicate SortedTree(nodes: seq<Node>, lower: string -> string)
    decreases nodes
  {
    && Sorted(nodes, ByKindAndName(lower))
    && forall n :: n in nodes && n.Folder? ==> SortedTree(n.children, lower)
  }

  /** Every folder's count is the number of leaves below it. */
  ghost predicate Counted(nodes: seq<Node>)
    decreases nodes
  {
    forall n :: n in nodes && n.Folder? ==> n.count == CountSessions(n.children) && Counted(n.children)
  }

  lemma NodeLeTotal(lower: string -> string, a: Node, b: Node)
    ensures NodeLe(lower, a, b) || NodeLe(lower, b, a)
  {
    StringLeTotal(lower(a.name), lower(b.name));
  }

  lemma NodeLeTrans(lower: string -> string, a: Node, b: Node, c: Node)
    requires NodeLe(lower, a, b) && NodeLe(lower, b, c)
    ensures NodeLe(lower, a, c)
  {
    if StringLe(lower(a.name), lower(b.name)) && StringLe(lower(b.name), lower(c.name)) {
      StringLeTrans(lower(a.name), lower(b.name), lower(c.name));
    }
  }

  lemma NodeOrder(lower: string -> string)
    ensures TotalPreorder(ByKindAndName(lower))
  {
    NodeOrderTransitive(lower);
    forall a, b ensures NodeLe(lower, a, b) || NodeLe(lower, b, a) {
      NodeLeTotal(lower, a, b);
    }
  }

  lemma NodeOrderTransitive(lower: string -> string)
    ensures Transitive(ByKindAndName(lower))
  {
    var le := ByKindAndName(lower);
    forall a, b, c | le(a, b) && le(b, c) ensures Via(a, b, c) && le(a, c) {
      NodeLeTrans(lower, a, b, c);
    }
  }

  lemma {:induction false} SortEachMember(nodes: seq<Node>, lower: string -> string, n: Node) returns (m: Node)
    requires n in SortEach(nodes, lower)
    ensures m in nodes && n == SortNode(m, lower)
    decreases |nodes|
  {
    if n == SortNode(nodes[0], lower) {
      m := nodes[0];
    } else {
      m := SortEachMember(nodes[1..], lower, n);
    }
  }

  lemma SortTreeMember(nodes: seq<Node>, lower: string -> string, n: Node) returns (m: Node)
    requires n in SortTree(nodes, lower)
    ensures m in nodes && n == SortNode(m, lower)
  {
    NodeOrder(lower);
    SortOk(SortEach(nodes, lower), ByKindAndName(lower));
    SortMembers(SortEach(nodes, lower), ByKindAndName(lower), n);
    m := SortEachMember(nodes, lower, n);
  }

  /** `sort_tree` sorts every level and fills in every count. */
  lemma {:induction false} SortTreeOk(nodes: seq<Node>, lower: string -> string)
    ensures SortedTree(SortTree(nodes, lower), lower) && Counted(SortTree(nodes, lower))
    decreases nodes
  {
    var sorted := SortTree(nodes, lower);
    assert Sorted(sorted, ByKindAndName(lower)) by {
      NodeOrder(lower);
      SortOk(SortEach(nodes, lower), ByKindAndName(lower));
    }
    forall n | n in sorted && n.Folder?
      ensures SortedTree(n.children, lower) && n.count == CountSessions(n.children) && Counted(n.children)
    {
      var m := SortTreeMember(nodes, lower, n);
      SortTreeOk(m.children, lower);
    }
  }

  // ------------------------------------------------------------------------- folders

  predicate Apart(a: Node, b: Node) {
    a.Folder? && b.Folder? ==> a.name != b.name
  }

  ghost predicate AllApart(nodes: seq<Node>) {
    forall i, j :: 0 <= i < j < |nodes| ==> Apart(nodes[i], nodes[j])
  }

  /** No level has two folders of the same name, and every folder's full path extends
      its parent's, starting from `path`. */
  ghost predicate Tidy(nodes: seq<Node>, path: string)
    decreases nodes
  {
    && AllApart(nodes)
    && forall n :: n in nodes && n.Folder? ==> n.fullPath == Extend(path, n.name) && Tidy(n.children, n.fullPath)
  }

  lemma {:induction false} PlaceTidy(nodes: seq<Node>, parts: seq<string>, path: string, leaf: Option<Node>)
    requires Tidy(nodes, path) && (leaf.Some? ==> leaf.value.Leaf?)
    ensures Tidy(Place(nodes, parts, path, leaf), path)
    decreases |parts|
  {
    if parts != [] {
      var here := Extend(path, parts[0]);
      var i := FolderIndex(nodes, parts[0]);
      if i < |nodes| {
        assert nodes[i] in nodes;
        PlaceTidy(nodes[i].children, parts[1..], here, leaf);
      } else {
        PlaceTidy([], parts[1..], here, leaf);
      }
    }
  }

  /** There is a folder with exactly these ancestor names, its own last. */
  ghost predicate HasFolder(nodes: seq<Node>, at: seq<string>)
    decreases |at|
  {
    at != [] && exists n :: n in nodes && n.Folder? && n.name == at[0] && (|at| == 1 || HasFolder(n.children, at[1..]))
  }

  lemma HasFolderNode(nodes: seq<Node>, at: seq<string>, n: Node)
    requires at != [] && n in nodes && n.Folder? && n.name == at[0] && (|at| == 1 || HasFolder(n.children, at[1..]))
    ensures HasFolder(nodes, at)
  {
  }

  predicate IsPrefix(at: seq<string>, parts: seq<string>) {
    at != [] && at <= parts
  }

  lemma PrefixTail(at: seq<string>, parts: seq<string>)
    requires at != [] && parts != []
    ensures IsPrefix(at, parts) <==> at[0] == parts[0] && (|at| == 1 || IsPrefix(at[1..], parts[1..]))
  {
    assert at == [at[0]] + at[1..] && parts == [parts[0]] + parts[1..];
    if at[0] == parts[0] && |at| > 1 && IsPrefix(at[1..], parts[1..]) {
      assert parts[1..][..|at| - 1] == at[1..];
      assert parts[..|at|] == [parts[0]] + parts[1..][..|at| - 1];
    }
    if IsPrefix(at, parts) {
      assert at[1..] == parts[..|at|][1..] == parts[1..][..|at| - 1];
    }
  }

  /** Placing creates the folders along the path and no others. */
  lemma {:induction false} PlaceFolders(
      nodes: seq<Node>, parts: seq<string>, path: string, leaf: Option<Node>, at: seq<string>)
    requires leaf.Some? ==> leaf.value.Leaf?
    requires Tidy(nodes, path)
    ensures HasFolder(Place(nodes, parts, path, leaf), at) <==> HasFolder(nodes, at) || IsPrefix(at, parts)
    decreases |parts|
  {
    var placed := Place(nodes, parts, path, leaf);
    if at == [] {
    } else if parts == [] {
      assert forall n :: n in placed && n.Folder? <==> n in nodes && n.Folder?;
    } else {
      PrefixTail(at, parts);
      var here := Extend(path, parts[0]);
      var i := FolderIndex(nodes, parts[0]);
      var inner := if i < |nodes| then nodes[i].children else [];
      if i < |nodes| {
        assert nodes[i] in nodes;
      }
      PlaceFolders(inner, parts[1..], here, leaf, at[1..]);
      PlaceLevel(nodes, parts, path, leaf, at);
    }
  }

  /** One level of that: only the folder named by the first segment changes. */
  lemma PlaceLevel(nodes: seq<Node>, parts: seq<string>, path: string, leaf: Option<Node>, at: seq<string>)
    requires parts != [] && at != [] && AllApart(nodes)
    ensures
      var i := FolderIndex(nodes, parts[0]);
      var inner := Place(if i < |nodes| then nodes[i].children else [], parts[1..], Extend(path, parts[0]), leaf);
      && (at[0] == parts[0] ==>
            (HasFolder(Place(nodes, parts, path, leaf), at) <==> |at| == 1 || HasFolder(inner, at[1..])))
      && (at[0] == parts[0] ==>
            (HasFolder(nodes, at) <==> i < |nodes| && (|at| == 1 || HasFolder(nodes[i].children, at[1..]))))
      && (at[0] != parts[0] ==> (HasFolder(Place(nodes, parts, path, leaf), at) <==> HasFolder(nodes, at)))
  {
    var i := FolderIndex(nodes, parts[0]);
    var here := Extend(path, parts[0]);
    var inner := Place(if i < |nodes| then nodes[i].children else [], parts[1..], here, leaf);
    var placed := Place(nodes, parts, path, leaf);
    var changed := if i < |nodes| then nodes[i].(children := inner) else Folder(parts[0], here, 0, inner);
    assert placed == if i < |nodes| then nodes[i := changed] else nodes + [changed];
    assert placed[i] == changed;
    forall n | n in placed && n.Folder? ensures if n.name == parts[0] then n == changed else n in nodes {
      var k :| 0 <= k < |placed| && placed[k] == n;
      if k != i {
        assert k < |nodes| && nodes[k] == n;
        assert i < k < |nodes| ==> Apart(nodes[i], nodes[k]);
      }
    }
    forall n | n in nodes && n.Folder?
      ensures if n.name == parts[0] then i < |nodes| && n == nodes[i] else n in placed {
      var k :| 0 <= k < |nodes| && nodes[k] == n;
      if n.name == parts[0] {
        assert i < k ==> Apart(nodes[i], nodes[k]);
      } else {
        assert placed[k] == n;
      }
    }
    if at[0] == parts[0] {
      if |at| == 1 || HasFolder(inner, at[1..]) {
        HasFolderNode(placed, at, changed);
      }
      if i < |nodes| && (|at| == 1 || HasFolder(nodes[i].children, at[1..])) {
        HasFolderNode(nodes, at, nodes[i]);
      }
    }
  }

  lemma {:induction false} InsertApart(x: Node, nodes: seq<Node>, le: (Node, Node) -> bool)
    requires AllApart(nodes) && forall n :: n in nodes ==> Apart(x, n)
    ensures AllApart(Insert(x, nodes, le))
    decreases |nodes|
  {
    if nodes != [] && le(nodes[0], x) {
      InsertApart(x, nodes[1..], le);
      InsertMembers(x, nodes[1..], le);
      var r := Insert(x, nodes[1..], le);
      forall j | 0 <= j < |r| ensures Apart(nodes[0], r[j]) {
        assert r[j] in nodes[1..] || r[j] == x;
        assert nodes[0] in nodes;
      }
    }
  }

  lemma {:induction false} SortApart(nodes: seq<Node>, le: (Node, Node) -> bool)
    requires AllApart(nodes)
    ensures AllApart(Sort(nodes, le))
    ensures forall n :: n in Sort(nodes, le) <==> n in nodes
    decreases |nodes|
  {
    if nodes != [] {
      var front, last := nodes[..|nodes| - 1], nodes[|nodes| - 1];
      SortApart(front, le);
      InsertMembers(last, Sort(front, le), le);
      assert nodes == front + [last];
      InsertApart(last, Sort(front, le), le);
    }
  }

  lemma {:induction false} SortEachAt(nodes: seq<Node>, lower: string -> string, i: nat)
    requires i < |nodes|
    ensures SortEach(nodes, lower)[i] == SortNode(nodes[i], lower)
    decreases |nodes|
  {
    if i > 0 {
      SortEachAt(nodes[1..], lower, i - 1);
    }
  }

  lemma SortEachApart(nodes: seq<Node>, lower: string -> string)
    requires AllApart(nodes)
    ensures AllApart(SortEach(nodes, lower))
  {
    var r := SortEach(nodes, lower);
    forall i, j | 0 <= i < j < |r| ensures Apart(r[i], r[j]) {
      SortEachAt(nodes, lower, i);
      SortEachAt(nodes, lower, j);
    }
  }

  /** Sorting keeps the tree tidy. */
  lemma {:induction false} SortTreeTidy(nodes: seq<Node>, path: string, lower: string -> string)
    requires Tidy(nodes, path)
    ensures Tidy(SortTree(nodes, lower), path)
    decreases nodes
  {
    SortEachApart(nodes, lower);
    SortApart(SortEach(nodes, lower), ByKindAndName(lower));
    forall n | n in SortTree(nodes, lower) && n.Folder?
      ensures n.fullPath == Extend(path, n.name) && Tidy(n.children, n.fullPath)
    {
      var m := SortTreeMember(nodes, lower, n);
      SortTreeTidy(m.children, m.fullPath, lower);
    }
  }

  lemma SortTreeHas(nodes: seq<Node>, lower: string -> string, m: Node)
    requires m in nodes && AllApart(nodes)
    ensures SortNode(m, lower) in SortTree(nodes, lower)
  {
    var i :| 0 <= i < |nodes| && nodes[i] == m;
    SortEachAt(nodes, lower, i);
    SortEachApart(nodes, lower);
    SortApart(SortEach(nodes, lower), ByKindAndName(lower));
    assert SortEach(nodes, lower)[i] in SortEach(nodes, lower);
  }

  /** Sorting neither adds nor removes a folder. */
  lemma {:induction false} SortTreeFolders(nodes: seq<Node>, path: string, lower: string -> string, at: seq<string>)
    requires Tidy(nodes, path)
    ensures HasFolder(SortTree(nodes, lower), at) <==> HasFolder(nodes, at)
    decreases |at|
  {
    if HasFolder(nodes, at) {
      var m :| m in nodes && m.Folder? && m.name == at[0] && (|at| == 1 || HasFolder(m.children, at[1..]));
      SortTreeHas(nodes, lower, m);
      SortTreeFolders(m.children, m.fullPath, lower, at[1..]);
      HasFolderNode(SortTree(nodes, lower), at, SortNode(m, lower));
    }
    if HasFolder(SortTree(nodes, lower), at) {
      var n :| n in SortTree(nodes, lower) && n.Folder? && n.name == at[0] &&
               (|at| == 1 || HasFolder(n.children, at[1..]));
      var m := SortTreeMember(nodes, lower, n);
      SortTreeFolders(m.children, m.fullPath, lower, at[1..]);
      HasFolderNode(nodes, at, m);
    }
  }

  /** Some path of the list leads through or to the folder `at`. */
  ghost predicate Leads(paths: seq<string>, at: seq<string>) {
    exists p :: p in paths && IsPrefix(at, Split(p, '/'))
  }

  function SessionFolders(sessions: seq<Session>): seq<string> {
    if sessions == [] then []
    else
      var s := sessions[|sessions| - 1];
      SessionFolders(sessions[..|sessions| - 1]) + if s.folder == "" then [] else [s.folder]
  }

  lemma {:induction false} AddFoldersOk(paths: seq<string>, at: seq<string>)
    ensures Tidy(AddFolders([], paths), "")
    ensures HasFolder(AddFolders([], paths), at) <==> Leads(paths, at)
  {
    if paths != [] {
      var front, last := paths[..|paths| - 1], paths[|paths| - 1];
      AddFoldersOk(front, at);
      PlaceTidy(AddFolders([], front), Split(last, '/'), "", None);
      PlaceFolders(AddFolders([], front), Split(last, '/'), "", None, at);
      assert paths == front + [last];
    }
  }

  lemma {:induction false} AddSessionsOk(root: seq<Node>, sessions: seq<Session>, at: seq<string>)
    requires Tidy(root, "")
    ensures Tidy(AddSessions(root, sessions), "")
    ensures HasFolder(AddSessions(root, sessions), at) <==> HasFolder(root, at) || Leads(SessionFolders(sessions), at)
  {
    if sessions != [] {
      var front, s := sessions[..|sessions| - 1], sessions[|sessions| - 1];
      AddSessionsOk(root, front, at);
      PlaceTidy(AddSessions(root, front), Home(s), "", Some(LeafOf(s)));
      PlaceFolders(AddSessions(root, front), Home(s), "", Some(LeafOf(s)), at);
      assert s.folder == "" ==> !IsPrefix(at, Home(s));
      var folders := SessionFolders(front);
      assert forall p :: p in folders + [s.folder] <==> p in folders || p == s.folder;
    }
  }

  /** The tree has exactly the folders its input paths lead through, each level without
      two of the same name, full paths extending each other; and it is sorted and counted. */
  lemma TreeOk(sessions: seq<Session>, emptyFolders: seq<string>, lower: string -> string, at: seq<string>)
    ensures
      var tree := Tree(sessions, emptyFolders, lower);
      && Tidy(tree, "") && SortedTree(tree, lower) && Counted(tree)
      && (HasFolder(tree, at) <==> Leads(emptyFolders + SessionFolders(sessions), at))
  {
    assert forall p :: p in emptyFolders + SessionFolders(sessions) <==>
                       p in emptyFolders || p in SessionFolders(sessions);
    AddFoldersOk(emptyFolders, at);
    var unsorted := AddSessions(AddFolders([], emptyFolders), sessions);
    AddSessionsOk(AddFolders([], emptyFolders), sessions, at);
    SortTreeTidy(unsorted, "", lower);
    SortTreeOk(unsorted, lower);
    SortTreeFolders(unsorted, "", lower, at);
  }

  // ---------------------------------------------------------------------- full paths

  /** Every folder's full path is its ancestors' names and its own, joined. */
  ghost predicate Joined(nodes: seq<Node>, at: seq<string>)
    decreases nodes
  {
    forall n :: n in nodes && n.Folder? ==> n.fullPath == Join(at + [n.name], '/') && Joined(n.children, at + [n.name])
  }

  lemma {:induction false} JoinSnoc(at: seq<string>, name: string)
    requires at != []
    ensures Join(at + [name], '/') == Join(at, '/') + "/" + name
  {
    if |at| == 1 {
      assert (at + [name])[1..] == [name];
    } else {
      JoinSnoc(at[1..], name);
      assert (at + [name])[1..] == at[1..] + [name];
    }
  }

  lemma {:induction false} JoinedBelow(nodes: seq<Node>, at: seq<string>)
    requires at != [] && Join(at, '/') != "" && Tidy(nodes, Join(at, '/'))
    ensures Joined(nodes, at)
    decreases nodes
  {
    forall n | n in nodes && n.Folder?
      ensures n.fullPath == Join(at + [n.name], '/') && Joined(n.children, at + [n.name])
    {
      JoinSnoc(at, n.name);
      JoinedBelow(n.children, at + [n.name]);
    }
  }

  lemma FolderBelowUnnamed(nodes: seq<Node>, n: Node, m: Node)
    requires n in nodes && n.Folder? && n.name == "" && m in n.children && m.Folder?
    ensures HasFolder(nodes, ["", m.name])
  {
  }

  /** A tidy forest's full paths are joined names if no unnamed top folder has folders. */
  lemma JoinedIf(nodes: seq<Node>)
    requires Tidy(nodes, "") && forall x :: !HasFolder(nodes, ["", x])
    ensures Joined(nodes, [])
  {
    forall n | n in nodes && n.Folder?
      ensures n.fullPath == Join([] + [n.name], '/') && Joined(n.children, [] + [n.name]) {
      assert [] + [n.name] == [n.name];
      if n.name != "" {
        JoinedBelow(n.children, [n.name]);
      } else {
        assert forall m :: m in n.children ==> !m.Folder? by {
          forall m | m in n.children && m.Folder? ensures HasFolder(nodes, ["", m.name]) {
            FolderBelowUnnamed(nodes, n, m);
          }
        }
      }
    }
  }

  /** ... and only then. */
  lemma JoinedOnlyIf(nodes: seq<Node>, x: string)
    requires Tidy(nodes, "") && HasFolder(nodes, ["", x])
    ensures !Joined(nodes, [])
  {
    assert ["", x][1..] == [x];
    var n :| n in nodes && n.Folder? && n.name == "" && HasFolder(n.children, [x]);
    var m :| m in n.children && m.Folder? && m.name == x;
    assert n.fullPath == "" && m.fullPath == x;
    JoinSnoc([""], x);
    assert [] + [n.name] == [""];
  }

  lemma LeadingSlash(p: string)
    ensures "/" <= p <==> |Split(p, '/')| >= 2 && Split(p, '/')[0] == ""
  {
    if p != [] {
      assert "/"[0] == '/';
      if p[0] == '/' {
        assert p[..1] == "/";
      }
    }
  }

  predicate NoLeadingSlash(paths: seq<string>) {
    forall p :: p in paths ==> !("/" <= p)
  }

  /** An unnamed top folder with a folder in it comes from a path with a leading slash. */
  lemma SlashUnnamed(paths: seq<string>) returns (x: string)
    requires !NoLeadingSlash(paths)
    ensures Leads(paths, ["", x])
  {
    var p :| p in paths && "/" <= p;
    LeadingSlash(p);
    var parts := Split(p, '/');
    x := parts[1];
    assert parts[..2] == ["", x];
    assert IsPrefix(["", x], parts);
  }

  lemma UnnamedSlash(paths: seq<string>, x: string)
    requires Leads(paths, ["", x])
    ensures !NoLeadingSlash(paths)
  {
    var p :| p in paths && IsPrefix(["", x], Split(p, '/'));
    assert Split(p, '/')[0] == ["", x][0];
    LeadingSlash(p);
  }

  lemma JoinedByPaths(tree: seq<Node>, paths: seq<string>)
    requires Tidy(tree, "") && forall x :: HasFolder(tree, ["", x]) <==> Leads(paths, ["", x])
    ensures Joined(tree, []) <==> NoLeadingSlash(paths)
  {
    if NoLeadingSlash(paths) {
      forall x ensures !HasFolder(tree, ["", x]) {
        if Leads(paths, ["", x]) {
          UnnamedSlash(paths, x);
        }
      }
      JoinedIf(tree);
    } else {
      var x := SlashUnnamed(paths);
      JoinedOnlyIf(tree, x);
    }
  }

  /** Full paths are joined ancestor names exactly when no input path starts with a slash. */
  lemma FullPathsJoinedIff(sessions: seq<Session>, emptyFolders: seq<string>, lower: string -> string)
    ensures Joined(Tree(sessions, emptyFolders, lower), []) <==> NoLeadingSlash(emptyFolders + SessionFolders(sessions))
  {
    var tree, paths := Tree(sessions, emptyFolders, lower), emptyFolders + SessionFolders(sessions);
    TreeOk(sessions, emptyFolders, lower, []);
    forall x ensures HasFolder(tree, ["", x]) <==> Leads(paths, ["", x]) {
      TreeOk(sessions, emptyFolders, lower, ["", x]);
    }
    JoinedByPaths(tree, paths);
  }

  /** A path with a leading slash: the folder `a` in it has the full path `a`, not `/a`. */
  lemma LeadingSlashNotJoined(lower: string -> string)
    ensures !Joined(Tree([], ["/a"], lower), [])
  {
    FullPathsJoinedIff([], ["/a"], lower);
    var paths := ["/a"] + SessionFolders([]);
    assert paths[0] == "/a" && "/a"[..1] == "/";
    assert paths[0] in paths && "/" <= paths[0];
  }

  // ------------------------------------------------------------- what a leaf says

  /** A leaf shows the session's label, or its display name when that is empty; its full
      path is the label, under the folder when there is one. */
  lemma LeafSays(s: Session)
    ensures LeafOf(s).Leaf? && LeafOf(s).id == s.id
    ensures s.title != "" ==> LeafOf(s).name == s.title
    ensures s.title == "" ==> LeafOf(s).name == s.displayName
    ensures s.folder == "" ==> LeafOf(s).fullPath == s.title && Home(s) == []
    ensures s.folder != "" ==> LeafOf(s).fullPath == s.folder + "/" + s.title && Join(Home(s), '/') == s.folder
  {
    if s.folder != "" {
      JoinSplit(s.folder, '/');
    }
  }

  /** The order of a level: folders before sessions, and by case-folded name within each. */
  lemma OrderSays(lower: string -> string, a: Node, b: Node)
    ensures a.Folder? && b.Leaf? ==> NodeLe(lower, a, b) && !NodeLe(lower, b, a)
    ensures a.Folder? == b.Folder? ==> (NodeLe(lower, a, b) <==> StringLe(lower(a.name), lower(b.name)))
  {
  }

  /** Two sessions in two folders of one parent, by what hangs where. */
  lemma CountSays(nodes: seq<Node>, id: string, name: string, path: string)
    ensures CountSessions([]) == 0
    ensures CountSessions([Leaf(name, path, id)] + nodes) == 1 + CountSessions(nodes)
    ensures CountSessions([Folder(name, path, 0, nodes)] + nodes) == CountSessions(nodes) + CountSessions(nodes)
  {
  }
}
