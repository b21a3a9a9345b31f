/**
 Folder rows and folder paths (folder_path.rs): the parent walk, the listing of all
 paths, and the cascade rename of a path list, which commutes with renaming the row.
*/
module FolderPath {
  import opened Wrappers
  import opened Text
  import opened Collections
  import opened Sorting
  import opened Lex

  datatype Row = Row(name: string, parent: Option<string>)

  type Folders = map<string, Row>

  // ------------------------------------------------------------------ parent walk

  datatype Mark = Rooted | Orphaned | Cyclic

  /** The names from the top of the walk down to the folder, and how the walk ended. */
  datatype Chain = Chain(names: seq<string>, mark: Mark)

  function Walk(folders: Folders, id: string, visited: set<string>): (c: Chain)
    ensures c.mark == Rooted ==> id in folders && c.names != []
    decreases folders.Keys - visited
  {
    if id in visited then Chain([], Cyclic)
    else if id !in folders then Chain([], Orphaned)
    else
      var row := folders[id];
      match row.parent
      case None => Chain([row.name], Rooted)
      case Some(p) =>
        var up := Walk(folders, p, visited + {id});
        Chain(up.names + [row.name], up.mark)
  }

  function ChainOf(folders: Folders, id: string): Chain {
    Walk(folders, id, {})
  }

  function Render(c: Chain): string {
    var joined := Join(c.names, '/');
    match c.mark
    case Rooted => joined
    case Orphaned => "(orphaned)/" + joined
    case Cyclic => "(cycle)/" + joined
  }

  function PathOf(folders: Folders, id: string): string {
    if id == "" then "" else Render(ChainOf(folders, id))
  }

  /** `build_folder_path`. */
  method BuildFolderPath(folderId: string, folders: Folders) returns (path: string)
    ensures path == PathOf(folders, folderId)
  {
    if folderId == "" {
      return "";
    }
    var parts: seq<string> := [];
    var visited: set<string> := {};
    var current := Some(folderId);
    ghost var whole := ChainOf(folders, folderId);
    while current.Some?
      invariant match current
                case Some(id) =>
                  var up := Walk(folders, id, visited);
                  whole == Chain(up.names + Reversed(parts), up.mark)
                case None => whole == Chain(Reversed(parts), Rooted)
      decreases current.Some?, folders.Keys - visited
    {
      var id := current.value;
      if id in visited {
        assert [] + Reversed(parts) == Reversed(parts);
        return "(cycle)/" + Join(Reversed(parts), '/');
      }
      if id !in folders {
        assert [] + Reversed(parts) == Reversed(parts);
        return "(orphaned)/" + Join(Reversed(parts), '/');
      }
      var row := folders[id];
      ReversedSnoc(parts, row.name);
      assert Reversed(parts + [row.name]) == [row.name] + Reversed(parts);
      if row.parent.Some? {
        var up := Walk(folders, row.parent.value, visited + {id});
        assert up.names + [row.name] + Reversed(parts) == up.names + ([row.name] + Reversed(parts));
      }
      visited := visited + {id};
      parts := parts + [row.name];
      current := row.parent;
    }
    path := Join(Reversed(parts), '/');
  }

  // ---------------------------------------------------------------- well-formedness

  predicate PlainName(name: string) {
    name != [] && '/' !in name
  }

  /** Non-empty ids, non-empty slash-free names, no orphan and no cycle. */
  predicate WellFormed(folders: Folders) {
    && "" !in folders
    && (forall id :: id in folders ==> PlainName(folders[id].name))
    && (forall id :: id in folders ==> ChainOf(folders, id).mark == Rooted)
  }

  function Names(folders: Folders, id: string): seq<string> {
    ChainOf(folders, id).names
  }

  /** A walk that reaches the top does so from any smaller set of visited ids. */
  lemma {:induction false} WalkShrinks(folders: Folders, id: string, small: set<string>, large: set<string>)
    requires small <= large && Walk(folders, id, large).mark == Rooted
    ensures Walk(folders, id, small) == Walk(folders, id, large)
    decreases folders.Keys - large
  {
    if folders[id].parent.Some? {
      WalkShrinks(folders, folders[id].parent.value, small + {id}, large + {id});
    }
  }

  /** A folder's names are its parent's and its own. */
  lemma NamesStep(folders: Folders, id: string)
    requires id in folders && ChainOf(folders, id).mark == Rooted
    ensures folders[id].parent == None ==> Names(folders, id) == [folders[id].name]
    ensures folders[id].parent.Some? ==>
              var p := folders[id].parent.value;
              && p in folders && ChainOf(folders, p).mark == Rooted
              && Names(folders, id) == Names(folders, p) + [folders[id].name]
  {
    if folders[id].parent.Some? {
      assert {} + {id} == {id};
      WalkShrinks(folders, folders[id].parent.value, {}, {id});
    }
  }

  lemma {:induction false} NamesPlain(folders: Folders, id: string)
    requires WellFormed(folders) && id in folders
    ensures Names(folders, id) != []
    ensures forall k :: 0 <= k < |Names(folders, id)| ==> PlainName(Names(folders, id)[k])
    decreases |Names(folders, id)|
  {
    NamesStep(folders, id);
    if folders[id].parent.Some? {
      NamesPlain(folders, folders[id].parent.value);
    }
  }

  /** `f` is `id` or lies below it. */
  predicate Under(folders: Folders, f: string, id: string)
    requires WellFormed(folders) && f in folders
    decreases |Names(folders, f)|
  {
    NamesStep(folders, f);
    f == id || (folders[f].parent.Some? && Under(folders, folders[f].parent.value, id))
  }

  lemma {:induction false} UnderIsPrefix(folders: Folders, f: string, id: string)
    requires WellFormed(folders) && f in folders && id in folders && Under(folders, f, id)
    ensures Names(folders, id) <= Names(folders, f)
    ensures f != id ==> |Names(folders, id)| < |Names(folders, f)|
    decreases |Names(folders, f)|
  {
    NamesStep(folders, f);
    if f != id {
      UnderIsPrefix(folders, folders[f].parent.value, id);
    }
  }

  // --------------------------------------------------------------------- renaming

  function Renamed(folders: Folders, id: string, name: string): Folders
    requires id in folders
  {
    folders[id := folders[id].(name := name)]
  }

  lemma {:induction false} RenamedWalk(folders: Folders, id: string, name: string, f: string, visited: set<string>)
    requires id in folders
    ensures Walk(Renamed(folders, id, name), f, visited).mark == Walk(folders, f, visited).mark
    ensures |Walk(Renamed(folders, id, name), f, visited).names| == |Walk(folders, f, visited).names|
    decreases folders.Keys - visited
  {
    if f !in visited && f in folders && folders[f].parent.Some? {
      RenamedWalk(folders, id, name, folders[f].parent.value, visited + {f});
    }
  }

  lemma RenamedWellFormed(folders: Folders, id: string, name: string)
    requires WellFormed(folders) && id in folders && PlainName(name)
    ensures WellFormed(Renamed(folders, id, name))
  {
    forall f | f in folders ensures ChainOf(Renamed(folders, id, name), f).mark == Rooted {
      RenamedWalk(folders, id, name, f, {});
    }
  }

  /** The names of `id` with the last one replaced. */
  function NewNames(folders: Folders, id: string, name: string): seq<string>
    requires Names(folders, id) != []
  {
    Names(folders, id)[..|Names(folders, id)| - 1] + [name]
  }

  /** The renamed row itself. */
  lemma RenamedSelf(folders: Folders, id: string, name: string)
    requires WellFormed(folders) && id in folders && PlainName(name)
    requires folders[id].parent.Some? ==>
               Names(Renamed(folders, id, name), folders[id].parent.value) == Names(folders, folders[id].parent.value)
    ensures Names(folders, id) != [] && Names(Renamed(folders, id, name), id) == NewNames(folders, id, name)
  {
    RenamedWellFormed(folders, id, name);
    NamesStep(folders, id);
    NamesStep(Renamed(folders, id, name), id);
  }

  /** A row below or beside it. */
  lemma RenamedOther(folders: Folders, id: string, name: string, f: string)
    requires WellFormed(folders) && id in folders && f in folders && PlainName(name) && f != id
    ensures Names(Renamed(folders, id, name), f) ==
            (if folders[f].parent.Some? then Names(Renamed(folders, id, name), folders[f].parent.value) else []) +
            [folders[f].name]
    ensures Names(folders, f) ==
            (if folders[f].parent.Some? then Names(folders, folders[f].parent.value) else []) + [folders[f].name]
  {
    RenamedWellFormed(folders, id, name);
    NamesStep(folders, f);
    NamesStep(Renamed(folders, id, name), f);
  }

  /** Renaming a row replaces one name in the paths of its subtree and touches no other. */
  lemma {:induction false} RenamedNames(folders: Folders, id: string, name: string, f: string)
    requires WellFormed(folders) && id in folders && f in folders && PlainName(name)
    ensures Under(folders, f, id) ==>
              && Names(folders, id) <= Names(folders, f)
              && Names(Renamed(folders, id, name), f) ==
                 NewNames(folders, id, name) + Names(folders, f)[|Names(folders, id)|..]
    ensures !Under(folders, f, id) ==> Names(Renamed(folders, id, name), f) == Names(folders, f)
    decreases |Names(folders, f)|
  {
    var old' := Names(folders, id);
    NamesStep(folders, f);
    if folders[f].parent.Some? {
      var p := folders[f].parent.value;
      RenamedNames(folders, id, name, p);
      if Under(folders, p, id) {
        UnderIsPrefix(folders, p, id);
      }
    }
    if f == id {
      RenamedSelf(folders, id, name);
      assert old'[|old'|..] == [];
    } else {
      RenamedOther(folders, id, name, f);
      if folders[f].parent.Some? && Under(folders, folders[f].parent.value, id) {
        RestSnoc(Names(folders, folders[f].parent.value), folders[f].name, old', NewNames(folders, id, name));
      }
    }
  }

  lemma RestSnoc(up: seq<string>, x: string, a: seq<string>, b: seq<string>)
    requires a <= up
    ensures a <= up + [x] && b + (up + [x])[|a|..] == b + up[|a|..] + [x]
  {
    assert (up + [x])[|a|..] == up[|a|..] + [x];
  }

  /** How `rename_paths_cascade` rewrites one path. */
  function Rewrite(p: string, oldPath: string, newPath: string): string {
    if oldPath == "" || newPath == "" || oldPath == newPath then p
    else if p == oldPath then newPath
    else if oldPath + "/" <= p then newPath + "/" + p[|oldPath| + 1..]
    else p
  }

  // ---------------------------------------------------------- paths as name lists

  predicate PlainNames(names: seq<string>) {
    names != [] && forall k :: 0 <= k < |names| ==> PlainName(names[k])
  }

  lemma {:induction false} JoinConcat(a: seq<string>, b: seq<string>)
    requires a != [] && b != []
    ensures Join(a + b, '/') == Join(a, '/') + "/" + Join(b, '/')
  {
    if |a| == 1 {
      JoinCons(a[0], b, '/');
      assert a + b == [a[0]] + b;
    } else {
      JoinConcat(a[1..], b);
      assert a + b == [a[0]] + (a[1..] + b) && a == [a[0]] + a[1..];
      JoinCons(a[0], a[1..] + b, '/');
      JoinCons(a[0], a[1..], '/');
    }
  }

  lemma JoinInjective(a: seq<string>, b: seq<string>)
    requires PlainNames(a) && PlainNames(b)
    ensures Join(a, '/') == Join(b, '/') ==> a == b
    ensures Join(a, '/') != ""
  {
    SplitJoin(a, '/');
    SplitJoin(b, '/');
    assert |Join(a, '/')| >= |a[0]|;
  }

  /** A path lies under another exactly when its names extend the other's. */
  lemma JoinPrefix(a: seq<string>, b: seq<string>)
    requires PlainNames(a) && PlainNames(b)
    ensures Join(a, '/') + "/" <= Join(b, '/') <==> a < b
    ensures a < b ==> Join(b, '/')[|Join(a, '/')| + 1..] == Join(b[|a|..], '/')
  {
    var pa, pb := Join(a, '/'), Join(b, '/');
    if a < b {
      assert b == a + b[|a|..];
      JoinConcat(a, b[|a|..]);
    }
    if pa + "/" <= pb {
      var rest := pb[|pa| + 1..];
      assert pb == pa + ['/'] + rest;
      SplitConcat(pa, rest, '/');
      SplitJoin(a, '/');
      SplitJoin(b, '/');
      assert b == a + Split(rest, '/');
    }
  }

  /** Rewriting a path replaces a leading run of names. */
  lemma RewriteNames(a: seq<string>, b: seq<string>, c: seq<string>)
    requires PlainNames(a) && PlainNames(b) && PlainNames(c) && a != b
    ensures Rewrite(Join(c, '/'), Join(a, '/'), Join(b, '/')) == Join(if a <= c then b + c[|a|..] else c, '/')
  {
    var pa, pb, pc := Join(a, '/'), Join(b, '/'), Join(c, '/');
    assert pa != "" && pb != "" && pa != pb && (pc == pa ==> c == a) by {
      JoinInjective(a, b);
      JoinInjective(b, a);
      JoinInjective(c, a);
    }
    if a == c {
      assert b + c[|a|..] == b;
    } else if a < c {
      RewriteUnder(a, b, c);
    } else {
      assert !(pa + "/" <= pc) by { JoinPrefix(a, c); }
    }
  }

  lemma RewriteUnder(a: seq<string>, b: seq<string>, c: seq<string>)
    requires PlainNames(a) && PlainNames(b) && PlainNames(c) && a < c
    ensures Join(a, '/') + "/" <= Join(c, '/') && Join(c, '/') != Join(a, '/')
    ensures Join(b, '/') + "/" + Join(c, '/')[|Join(a, '/')| + 1..] == Join(b + c[|a|..], '/')
  {
    JoinPrefix(a, c);
    JoinConcat(b, c[|a|..]);
  }

  // --------------------------------------------------------------------- listings

  /** `out` is the strictly ascending list of the elements of `s`. */
  ghost predicate Lists(out: seq<string>, s: set<string>) {
    Ascending(out, StringLt) && forall x :: x in out <==> x in s
  }

  ghost function PathSet(folders: Folders): set<string> {
    set id | id in folders :: PathOf(folders, id)
  }

  ghost function RewriteSet(paths: seq<string>, oldPath: string, newPath: string): set<string> {
    set p | p in paths :: Rewrite(p, oldPath, newPath)
  }

  /** `all_folder_paths`. */
  method AllFolderPaths(folders: Folders) returns (out: seq<string>)
    ensures Lists(out, PathSet(folders))
  {
    out := [];
    var keys := folders.Keys;
    while keys != {}
      invariant keys <= folders.Keys
      invariant forall x :: x in out <==> exists id :: id in folders.Keys - keys && x == PathOf(folders, id)
      decreases keys
    {
      var id :| id in keys;
      var path := BuildFolderPath(id, folders);
      assert folders.Keys - (keys - {id}) == folders.Keys - keys + {id};
      keys := keys - {id};
      out := out + [path];
    }
    SortDedupOk(out);
    out := SortDedup(out);
  }

  /** `rename_paths_cascade`. */
  method RenamePathsCascade(paths: seq<string>, oldPath: string, newPath: string) returns (out: seq<string>)
    ensures Lists(out, RewriteSet(paths, oldPath, newPath))
  {
    if oldPath == "" || newPath == "" || oldPath == newPath {
      SortDedupOk(paths);
      return SortDedup(paths);
    }
    var prefix := oldPath + "/";
    out := [];
    for i := 0 to |paths|
      invariant |out| == i && forall k :: 0 <= k < i ==> out[k] == Rewrite(paths[k], oldPath, newPath)
    {
      var p := paths[i];
      if p == oldPath {
        out := out + [newPath];
      } else if prefix <= p {
        out := out + [newPath + "/" + p[|prefix|..]];
      } else {
        out := out + [p];
      }
    }
    SortDedupOk(out);
    ghost var mapped := out;
    forall x ensures x in mapped <==> x in RewriteSet(paths, oldPath, newPath) {
      if x in mapped {
        var k :| 0 <= k < |mapped| && mapped[k] == x;
        assert paths[k] in paths;
      }
      if x in RewriteSet(paths, oldPath, newPath) {
        var p :| p in paths && x == Rewrite(p, oldPath, newPath);
        var k :| 0 <= k < |paths| && paths[k] == p;
        assert mapped[k] == x;
      }
    }
    out := SortDedup(out);
  }

  /** The keys of a `BTreeMap`, in order. */
  method OrderedKeys(folders: Folders) returns (keys: seq<string>)
    ensures Ascending(keys, StringLt) && forall id :: id in keys <==> id in folders
  {
    keys := [];
    var left := folders.Keys;
    while left != {}
      invariant left <= folders.Keys && forall id :: id in keys <==> id in folders.Keys - left
      decreases left
    {
      var id :| id in left;
      keys := keys + [id];
      left := left - {id};
    }
    SortDedupOk(keys);
    keys := SortDedup(keys);
  }

  lemma FirstIsLeast(keys: seq<string>, i: nat, p: string -> bool)
    requires Ascending(keys, StringLt) && i < |keys| && forall k :: 0 <= k < i ==> !p(keys[k])
    ensures forall id :: id in keys && p(id) ==> StringLe(keys[i], id)
  {
    forall id | id in keys && p(id) ensures StringLe(keys[i], id) {
      var k :| 0 <= k < |keys| && keys[k] == id;
      if k == i {
        StringLeTotal(id, id);
      } else {
        assert StringLt(keys[i], keys[k]);
      }
    }
  }

  /** `find_folder_id_by_path`: the least id with that path. */
  method FindFolderIdByPath(path: string, folders: Folders) returns (found: Option<string>)
    ensures found.Some? ==> path != "" && found.value in folders && PathOf(folders, found.value) == path
    ensures found.Some? ==> forall id :: id in folders && PathOf(folders, id) == path ==> StringLe(found.value, id)
    ensures found.None? ==> path == "" || forall id :: id in folders ==> PathOf(folders, id) != path
  {
    if path == "" {
      return None;
    }
    var keys := OrderedKeys(folders);
    for i := 0 to |keys|
      invariant forall k :: 0 <= k < i ==> PathOf(folders, keys[k]) != path
    {
      var p := BuildFolderPath(keys[i], folders);
      if p == path {
        FirstIsLeast(keys, i, id => PathOf(folders, id) == path);
        return Some(keys[i]);
      }
    }
    return None;
  }

  // --------------------------------------------------------- the commuting diagram

  /** No folder outside the subtree of `id` has a path equal to or under the path of `id`. */
  predicate Unshadowed(folders: Folders, id: string)
    requires WellFormed(folders) && id in folders
  {
    forall f :: f in folders && Names(folders, id) <= Names(folders, f) ==> Under(folders, f, id)
  }

  lemma PathNames(folders: Folders, id: string)
    requires WellFormed(folders) && id in folders
    ensures PathOf(folders, id) == Join(Names(folders, id), '/') && PlainNames(Names(folders, id))
  {
    NamesPlain(folders, id);
  }

  /** The path a folder outside a shadow keeps, and the path the cascade gives it. */
  lemma RewrittenPath(folders: Folders, id: string, name: string, f: string)
    requires WellFormed(folders) && id in folders && f in folders && PlainName(name) && name != folders[id].name
    ensures
      var renamed := Renamed(folders, id, name);
      && PlainNames(NewNames(folders, id, name)) && NewNames(folders, id, name) != Names(folders, id)
      && PathOf(renamed, f) == Join(Names(renamed, f), '/')
      && Rewrite(PathOf(folders, f), PathOf(folders, id), PathOf(renamed, id)) ==
         Join(if Names(folders, id) <= Names(folders, f)
              then NewNames(folders, id, name) + Names(folders, f)[|Names(folders, id)|..] else Names(folders, f), '/')
  {
    var renamed := Renamed(folders, id, name);
    RenamedWellFormed(folders, id, name);
    PathNames(folders, id);
    PathNames(folders, f);
    PathNames(renamed, f);
    PathNames(renamed, id);
    NamesStep(folders, id);
    RenamedNames(folders, id, name, id);
    var a, b := Names(folders, id), NewNames(folders, id, name);
    assert a[|a|..] == [] && b + [] == b;
    assert b[|b| - 1] == name && a[|a| - 1] == folders[id].name;
    RewriteNames(a, b, Names(folders, f));
  }

  /** Without a shadow, the cascade sends every path to the path after the rename. */
  lemma CascadeFollows(folders: Folders, id: string, name: string, f: string)
    requires WellFormed(folders) && id in folders && f in folders && PlainName(name)
    requires name == folders[id].name || Unshadowed(folders, id)
    ensures Rewrite(PathOf(folders, f), PathOf(folders, id), PathOf(Renamed(folders, id, name), id)) ==
            PathOf(Renamed(folders, id, name), f)
  {
    if name == folders[id].name {
      assert Renamed(folders, id, name) == folders;
    } else {
      RewrittenPath(folders, id, name, f);
      RenamedNames(folders, id, name, f);
    }
  }

  /** Replacing the leading names `a` by `b` never gives a list that starts with `a`. */
  lemma MovedAway(a: seq<string>, b: seq<string>, c: seq<string>, d: seq<string>)
    requires PlainNames(a) && PlainNames(b) && PlainNames(c) && |a| == |b| && a != b && a <= d
    ensures
      var mapped := if a <= c then b + c[|a|..] else c;
      PlainNames(mapped) && mapped != d
  {
  }

  /** A shadowing folder keeps its path, which the cascade no longer lists. */
  lemma ShadowIsLost(folders: Folders, id: string, name: string, g: string, f: string)
    requires WellFormed(folders) && id in folders && g in folders && f in folders && PlainName(name)
    requires name != folders[id].name && Names(folders, id) <= Names(folders, g) && !Under(folders, g, id)
    ensures PathOf(Renamed(folders, id, name), g) == PathOf(folders, g)
    ensures Rewrite(PathOf(folders, f), PathOf(folders, id), PathOf(Renamed(folders, id, name), id)) !=
            PathOf(folders, g)
  {
    RewrittenPath(folders, id, name, f);
    RewrittenPath(folders, id, name, g);
    RenamedNames(folders, id, name, g);
    PathNames(folders, g);
    PathNames(folders, f);
    var a, b := Names(folders, id), NewNames(folders, id, name);
    var mapped := if a <= Names(folders, f) then b + Names(folders, f)[|a|..] else Names(folders, f);
    MovedAway(a, b, Names(folders, f), Names(folders, g));
    JoinInjective(mapped, Names(folders, g));
  }

  /** Listing after renaming the row gives the cascaded list exactly when the row keeps
      its name or no folder shadows it. */
  lemma RenameCommutesIff(folders: Folders, id: string, name: string,
                          before: seq<string>, cascaded: seq<string>, after: seq<string>)
    requires WellFormed(folders) && id in folders && PlainName(name)
    requires Lists(before, PathSet(folders))
    requires Lists(cascaded, RewriteSet(before, PathOf(folders, id), PathOf(Renamed(folders, id, name), id)))
    requires Lists(after, PathSet(Renamed(folders, id, name)))
    ensures cascaded == after <==> name == folders[id].name || Unshadowed(folders, id)
  {
    var renamed := Renamed(folders, id, name);
    var oldPath, newPath := PathOf(folders, id), PathOf(renamed, id);
    AscendingStringsUnique(cascaded, after);
    if name == folders[id].name || Unshadowed(folders, id) {
      forall x ensures x in cascaded <==> x in after {
        if x in cascaded {
          var p :| p in before && x == Rewrite(p, oldPath, newPath);
          var f :| f in folders && p == PathOf(folders, f);
          CascadeFollows(folders, id, name, f);
        }
        if x in after {
          var f :| f in renamed && x == PathOf(renamed, f);
          CascadeFollows(folders, id, name, f);
          assert PathOf(folders, f) in before;
        }
      }
    } else {
      var g :| g in folders && Names(folders, id) <= Names(folders, g) && !Under(folders, g, id);
      ShadowIsLost(folders, id, name, g, g);
      assert g in renamed && PathOf(renamed, g) in after;
      if PathOf(folders, g) in cascaded {
        var p :| p in before && PathOf(folders, g) == Rewrite(p, oldPath, newPath);
        var f :| f in folders && p == PathOf(folders, f);
        ShadowIsLost(folders, id, name, g, f);
        assert false;
      }
    }
  }

  /** Two top-level folders of the same name: renaming one row leaves the other's path
      in the listing, while the cascade moves it. */
  lemma TwinsDoNotCommute()
    ensures
      var twins := map["1" := Row("A", None), "2" := Row("A", None)];
      && WellFormed(twins) && !Unshadowed(twins, "1")
      && Rewrite(PathOf(twins, "2"), PathOf(twins, "1"), "B") == "B" && PathOf(Renamed(twins, "1", "B"), "2") == "A"
  {
  }

  // ------------------------------------------------------------- distinct siblings

  predicate DistinctSiblings(folders: Folders) {
    forall f, g :: f in folders && g in folders && folders[f] == folders[g] ==> f == g
  }

  lemma {:induction false} NamesInjective(folders: Folders, f: string, g: string)
    requires WellFormed(folders) && DistinctSiblings(folders) && f in folders && g in folders
    requires Names(folders, f) == Names(folders, g)
    ensures f == g
    decreases |Names(folders, f)|
  {
    NamesStep(folders, f);
    NamesStep(folders, g);
    var n := |Names(folders, f)| - 1;
    assert Names(folders, f)[n] == folders[f].name && Names(folders, g)[n] == folders[g].name;
    if folders[f].parent.Some? && folders[g].parent.Some? {
      assert Names(folders, f)[..n] == Names(folders, folders[f].parent.value);
      assert Names(folders, g)[..n] == Names(folders, folders[g].parent.value);
      NamesInjective(folders, folders[f].parent.value, folders[g].parent.value);
    }
  }

  /** Every leading run of a folder's names belongs to one of its ancestors. */
  lemma {:induction false} AncestorAt(folders: Folders, f: string, k: nat) returns (a: string)
    requires WellFormed(folders) && f in folders && 1 <= k <= |Names(folders, f)|
    ensures a in folders && Under(folders, f, a) && Names(folders, a) == Names(folders, f)[..k]
    decreases |Names(folders, f)|
  {
    NamesStep(folders, f);
    if k == |Names(folders, f)| {
      a := f;
    } else {
      a := AncestorAt(folders, folders[f].parent.value, k);
    }
  }

  /** Distinct sibling names leave no shadow, so the rename always commutes with the
      cascade, and looking a path up finds the folder it was built from. */
  lemma DistinctSiblingsUnshadowed(folders: Folders, id: string)
    requires WellFormed(folders) && DistinctSiblings(folders) && id in folders
    ensures Unshadowed(folders, id)
    ensures forall f :: f in folders && PathOf(folders, f) == PathOf(folders, id) ==> f == id
  {
    PathNames(folders, id);
    forall f | f in folders && Names(folders, id) <= Names(folders, f) ensures Under(folders, f, id) {
      var a := AncestorAt(folders, f, |Names(folders, id)|);
      NamesInjective(folders, a, id);
    }
    forall f | f in folders && PathOf(folders, f) == PathOf(folders, id) ensures f == id {
      PathNames(folders, f);
      JoinInjective(Names(folders, f), Names(folders, id));
      NamesInjective(folders, f, id);
    }
  }

  // -------------------------------------------------------------- the two markers

  /** The folder `k` parents up. */
  function Ancestor(folders: Folders, id: string, k: nat): Option<string> {
    if k == 0 then Some(id)
    else
      match Ancestor(folders, id, k - 1)
      case None => None
      case Some(up) => if up in folders then folders[up].parent else None
  }

  lemma {:induction false} AncestorUp(folders: Folders, id: string, k: nat)
    requires id in folders && folders[id].parent.Some?
    ensures Ancestor(folders, folders[id].parent.value, k) == Ancestor(folders, id, k + 1)
  {
    if k > 0 {
      AncestorUp(folders, id, k - 1);
    }
  }

  /** The ancestor `k` steps up was met before. */
  ghost predicate Repeats(folders: Folders, id: string, visited: set<string>, k: nat) {
    && Ancestor(folders, id, k).Some?
    && (Ancestor(folders, id, k).value in visited ||
        exists j: nat :: j < k && Ancestor(folders, id, j) == Ancestor(folders, id, k))
  }

  /** How a walk that stops `k` steps up ends: at a folder without parent, at a missing one,
      or at one it has met. */
  ghost predicate EndsAs(folders: Folders, id: string, visited: set<string>, mark: Mark, k: nat) {
    match mark
    case Rooted =>
      && Ancestor(folders, id, k).Some? && Ancestor(folders, id, k).value in folders
      && folders[Ancestor(folders, id, k).value].parent == None
    case Orphaned => Ancestor(folders, id, k).Some? && Ancestor(folders, id, k).value !in folders
    case Cyclic => Repeats(folders, id, visited, k)
  }

  lemma RepeatsUp(folders: Folders, id: string, visited: set<string>, k: nat)
    requires id in folders && folders[id].parent.Some?
    requires Repeats(folders, folders[id].parent.value, visited + {id}, k)
    ensures Repeats(folders, id, visited, k + 1)
  {
    var p := folders[id].parent.value;
    AncestorUp(folders, id, k);
    if Ancestor(folders, p, k).value == id {
      assert Ancestor(folders, id, 0) == Some(id);
    } else if Ancestor(folders, p, k).value !in visited {
      var j: nat :| j < k && Ancestor(folders, p, j) == Ancestor(folders, p, k);
      AncestorUp(folders, id, j);
      assert Ancestor(folders, id, j + 1) == Ancestor(folders, id, k + 1);
    }
  }

  /** The mark says how the walk ended. */
  lemma {:induction false} WalkMark(folders: Folders, id: string, visited: set<string>) returns (k: nat)
    ensures EndsAs(folders, id, visited, Walk(folders, id, visited).mark, k)
    decreases folders.Keys - visited
  {
    k := 0;
    if id !in visited && id in folders && folders[id].parent.Some? {
      var p := folders[id].parent.value;
      k := WalkMark(folders, p, visited + {id});
      AncestorUp(folders, id, k);
      if Walk(folders, p, visited + {id}).mark == Cyclic {
        RepeatsUp(folders, id, visited, k);
      }
      k := k + 1;
    }
  }

  lemma NoFolderNoPath(folders: Folders)
    ensures PathOf(folders, "") == ""
  {
  }

  /** The path of a folder below the top: its ancestors' names, the topmost first, with a
      mark in front when the walk did not end at a top-level folder. */
  lemma PathSays(folders: Folders, id: string)
    requires id != ""
    ensures
      var c := ChainOf(folders, id);
      && (c.mark == Rooted ==> PathOf(folders, id) == Join(c.names, '/'))
      && (c.mark == Orphaned ==> PathOf(folders, id) == "(orphaned)/" + Join(c.names, '/'))
      && (c.mark == Cyclic ==> PathOf(folders, id) == "(cycle)/" + Join(c.names, '/'))
  {
  }

  /** A missing folder, one whose parent is missing, and one that is its own parent. */
  lemma MarkedPaths(folders: Folders, id: string)
    requires id != ""
    ensures id !in folders ==> PathOf(folders, id) == "(orphaned)/"
    ensures id in folders && folders[id].parent.Some? && folders[id].parent.value !in folders ==>
              PathOf(folders, id) == "(orphaned)/" + folders[id].name
    ensures id in folders && folders[id].parent == Some(id) ==> PathOf(folders, id) == "(cycle)/" + folders[id].name
    ensures id in folders && folders[id].parent == None ==> PathOf(folders, id) == folders[id].name
  {
    if id in folders {
      var name := folders[id].name;
      assert [] + [name] == [name] && Join([name], '/') == name;
      if folders[id].parent.Some? {
        var p := folders[id].parent.value;
        assert p !in folders ==> Walk(folders, p, {} + {id}).names == [];
        assert p == id ==> Walk(folders, p, {} + {id}).names == [];
        assert ChainOf(folders, id).names == Walk(folders, p, {} + {id}).names + [name];
      }
    }
  }
}
