/**
 The known-hosts table of known_hosts.rs: import (`import_from_string`, `import_line`,
 `import_entry`) and export (`export_to_string`).  The SQL table is a map keyed by its
 unique index `(host, port)`.
*/
module KnownHosts {
  import opened Wrappers
  import opened Text
  import opened Collections
  import opened Sorting
  import opened Lex
  import opened HostSpec
  import opened KnownHostsLines

  datatype Row = Row(keyType: string, key: string)

  type Table = map<HostPort, Row>

  datatype Summary = Summary(added: nat, skippedExisting: nat, skippedHashed: nat)

  // ------------------------------------------------------------ what import means

  function Get(table: Table, hp: HostPort): Option<Row> {
    if hp in table then Some(table[hp]) else None
  }

  predicate Names(e: Entry, hp: HostPort) {
    SplitHostPort(e.hostPort) == Some(hp)
  }

  /** The first entry for a host and port. */
  function FirstFor(entries: seq<Entry>, hp: HostPort): Option<Row> {
    if entries == [] then None
    else if Names(entries[0], hp) then Some(Row(entries[0].keyType, entries[0].key))
    else FirstFor(entries[1..], hp)
  }

  /** Rows that were there stay; every other host and port gets its first entry. */
  ghost predicate Imported(before: Table, entries: seq<Entry>, after: Table) {
    forall hp :: Get(after, hp) == if hp in before then Some(before[hp]) else FirstFor(entries, hp)
  }

  function Splittable(entries: seq<Entry>): nat {
    if entries == [] then 0 else (if SplitHostPort(entries[0].hostPort).Some? then 1 else 0) + Splittable(entries[1..])
  }

  function HashedLines(valid: string -> bool, lines: seq<string>): nat {
    if lines == [] then 0
    else HashedLines(valid, lines[..|lines| - 1]) + IsHashed(valid, lines[|lines| - 1])
  }

  function IsHashed(valid: string -> bool, line: string): nat {
    if LineEntries(valid, line) == [] && IsHashedHostsLine(line) then 1 else 0
  }

  function LinesEntries(valid: string -> bool, lines: seq<string>): seq<Entry> {
    FlatMap(line => LineEntries(valid, line), lines)
  }

  function FileEntries(valid: string -> bool, content: string): seq<Entry> {
    LinesEntries(valid, Split(content, '\n'))
  }

  lemma LinesNext(valid: string -> bool, lines: seq<string>, i: nat)
    requires i < |lines|
    ensures LinesEntries(valid, lines[..i + 1]) == LinesEntries(valid, lines[..i]) + LineEntries(valid, lines[i])
    ensures HashedLines(valid, lines[..i + 1]) == HashedLines(valid, lines[..i]) + IsHashed(valid, lines[i])
  {
    FlatMapNext(line => LineEntries(valid, line), lines, i);
    assert lines[..i + 1][..i] == lines[..i];
  }

  /** What a summary says of the import that made it. */
  ghost predicate Summarises(s: Summary, before: Table, entries: seq<Entry>, after: Table) {
    && Imported(before, entries, after)
    && s.added + |before| == |after|
    && s.added + s.skippedExisting == Splittable(entries)
  }

  lemma {:induction false} FirstForConcat(a: seq<Entry>, b: seq<Entry>, hp: HostPort)
    ensures FirstFor(a + b, hp) == if FirstFor(a, hp).Some? then FirstFor(a, hp) else FirstFor(b, hp)
  {
    if a == [] {
      assert a + b == b;
    } else {
      assert (a + b)[1..] == a[1..] + b;
      FirstForConcat(a[1..], b, hp);
    }
  }

  lemma {:induction false} SplittableConcat(a: seq<Entry>, b: seq<Entry>)
    ensures Splittable(a + b) == Splittable(a) + Splittable(b)
  {
    if a == [] {
      assert a + b == b;
    } else {
      assert (a + b)[1..] == a[1..] + b;
      SplittableConcat(a[1..], b);
    }
  }

  /** Importing one file after another is importing their entries in that order. */
  lemma ImportedThen(before: Table, a: seq<Entry>, middle: Table, b: seq<Entry>, after: Table)
    requires Imported(before, a, middle) && Imported(middle, b, after)
    ensures Imported(before, a + b, after)
  {
    forall hp ensures Get(after, hp) == if hp in before then Some(before[hp]) else FirstFor(a + b, hp) {
      FirstForConcat(a, b, hp);
      assert Get(middle, hp) == if hp in before then Some(before[hp]) else FirstFor(a, hp);
    }
  }

  lemma ImportedUnique(before: Table, entries: seq<Entry>, x: Table, y: Table)
    requires Imported(before, entries, x) && Imported(before, entries, y)
    ensures x == y
  {
    forall hp ensures Get(x, hp) == Get(y, hp) {
    }
    SameTable(x, y);
  }

  lemma SameTable(x: Table, y: Table)
    requires forall hp :: Get(x, hp) == Get(y, hp)
    ensures x == y
  {
    assert forall hp :: hp in x <==> Get(x, hp).Some?;
    assert forall hp :: hp in y <==> Get(y, hp).Some?;
    assert forall hp :: hp in x ==> Get(x, hp) == Some(x[hp]) && Get(y, hp) == Some(y[hp]);
  }

  /** Importing the same file again changes nothing and adds nothing. */
  lemma SecondImportIdle(s: Summary, before: Table, entries: seq<Entry>, middle: Table, after: Table)
    requires Imported(before, entries, middle) && Summarises(s, middle, entries, after)
    ensures after == middle && s.added == 0 && s.skippedExisting == Splittable(entries)
  {
    forall hp ensures Get(after, hp) == Get(middle, hp) {
      assert Get(middle, hp) == if hp in before then Some(before[hp]) else FirstFor(entries, hp);
    }
    SameTable(after, middle);
  }

  lemma SummariesAdd(s: Summary, t: Summary, before: Table, a: seq<Entry>, middle: Table, b: seq<Entry>, after: Table)
    requires Summarises(s, before, a, middle) && Imported(middle, b, after)
    requires t.added == s.added + |after| - |middle|
    requires t.added + t.skippedExisting == s.added + s.skippedExisting + Splittable(b)
    ensures Summarises(t, before, a + b, after)
  {
    ImportedThen(before, a, middle, b, after);
    SplittableConcat(a, b);
  }

  // -------------------------------------------------------------- what export means

  predicate KeyLe(a: HostPort, b: HostPort) {
    StringLt(a.host, b.host) || (a.host == b.host && a.port <= b.port)
  }

  predicate KeyLt(a: HostPort, b: HostPort) {
    KeyLe(a, b) && a != b
  }

  /** Rows are ordered by host, and by port under one host. */
  lemma KeyOrderSays(a: HostPort, b: HostPort)
    ensures a.host != b.host ==> (KeyLt(a, b) <==> StringLt(a.host, b.host))
    ensures a.host == b.host ==> (KeyLt(a, b) <==> a.port < b.port)
  {
  }

  function Render(table: Table, keys: seq<HostPort>): string
    requires forall k :: k in keys ==> k in table
  {
    if keys == [] then []
    else RowLine(table, keys[0]) + ['\n'] + Render(table, keys[1..])
  }

  function RowLine(table: Table, hp: HostPort): string
    requires hp in table
  {
    ExportLine(hp, table[hp].keyType, table[hp].key)
  }

  /** One line per row, ordered by host and port. */
  ghost predicate IsExport(table: Table, text: string) {
    exists keys :: Lists(table, keys) && text == Render(table, keys)
  }

  ghost predicate Lists(table: Table, keys: seq<HostPort>) {
    Ascending(keys, KeyLt) && forall k :: k in keys <==> k in table
  }

  lemma KeyLeTrans(a: HostPort, b: HostPort, c: HostPort)
    requires KeyLe(a, b) && KeyLe(b, c)
    ensures KeyLe(a, c)
  {
    if StringLt(a.host, b.host) && StringLt(b.host, c.host) {
      StringLeTrans(a.host, b.host, c.host);
      StringLeTotal(a.host, b.host);
    }
  }

  lemma KeyTransitive()
    ensures Transitive(KeyLe)
  {
    forall a, b, c | KeyLe(a, b) && KeyLe(b, c) ensures Via(a, b, c) && KeyLe(a, c) {
      KeyLeTrans(a, b, c);
    }
  }

  lemma KeyComparable(a: HostPort, b: HostPort)
    ensures KeyLe(a, b) || KeyLe(b, a)
  {
    StringLeTotal(a.host, b.host);
  }

  lemma KeyOrder()
    ensures TotalPreorder(KeyLe)
  {
    KeyTransitive();
    forall a, b ensures KeyLe(a, b) || KeyLe(b, a) {
      KeyComparable(a, b);
    }
  }

  lemma KeyAsymmetric()
    ensures Asymmetric(KeyLt)
  {
    forall a, b ensures !(KeyLt(a, b) && KeyLt(b, a)) {
      StringLeTotal(a.host, b.host);
    }
  }

  /** The same table always exports to the same text. */
  lemma ExportDeterministic(table: Table, x: string, y: string)
    requires IsExport(table, x) && IsExport(table, y)
    ensures x == y
  {
    var xs :| Lists(table, xs) && x == Render(table, xs);
    var ys :| Lists(table, ys) && y == Render(table, ys);
    KeyAsymmetric();
    AscendingUnique(xs, ys, KeyLt);
  }

  // ------------------------------------------------------------------- the database

  class KnownHostsDb {
    var rows: Table
    var published: nat

    constructor ()
      ensures rows == map[] && published == 0
    {
      rows := map[];
      published := 0;
    }

    /** `import_entry`. */
    method ImportEntry(e: Entry, s: Summary) returns (t: Summary)
      modifies this`rows
      ensures Imported(old(rows), [e], rows)
      ensures t.added == s.added + |rows| - |old(rows)|
      ensures t.added + t.skippedExisting == s.added + s.skippedExisting + Splittable([e])
      ensures t.skippedHashed == s.skippedHashed
    {
      var hp := SplitHostPort(e.hostPort);
      t := s;
      if hp.Some? {
        if hp.value in rows {
          t := s.(skippedExisting := s.skippedExisting + 1);
        } else {
          rows := rows[hp.value := Row(e.keyType, e.key)];
          t := s.(added := s.added + 1);
        }
      }
    }

    /** `import_line`. */
    method ImportLine(valid: string -> bool, line: string, s: Summary) returns (t: Summary)
      modifies this`rows
      ensures Imported(old(rows), LineEntries(valid, line), rows)
      ensures t.added == s.added + |rows| - |old(rows)|
      ensures t.added + t.skippedExisting == s.added + s.skippedExisting + Splittable(LineEntries(valid, line))
      ensures t.skippedHashed == s.skippedHashed + IsHashed(valid, line)
    {
      var entries := ParseLine(valid, line);
      t := s;
      if entries == [] {
        if IsHashedHostsLine(line) {
          t := s.(skippedHashed := s.skippedHashed + 1);
        }
        return;
      }
      t := ImportEntries(entries, s);
    }

    /** The loop of `import_line`. */
    method ImportEntries(entries: seq<Entry>, s: Summary) returns (t: Summary)
      modifies this`rows
      ensures Imported(old(rows), entries, rows)
      ensures t.added == s.added + |rows| - |old(rows)|
      ensures t.added + t.skippedExisting == s.added + s.skippedExisting + Splittable(entries)
      ensures t.skippedHashed == s.skippedHashed
    {
      t := s;
      for i := 0 to |entries|
        invariant Imported(old(rows), entries[..i], rows)
        invariant t.added == s.added + |rows| - |old(rows)|
        invariant t.added + t.skippedExisting == s.added + s.skippedExisting + Splittable(entries[..i])
        invariant t.skippedHashed == s.skippedHashed
      {
        ghost var middle := rows;
        t := ImportEntry(entries[i], t);
        ImportedThen(old(rows), entries[..i], middle, [entries[i]], rows);
        SplittableConcat(entries[..i], [entries[i]]);
        assert entries[..i + 1] == entries[..i] + [entries[i]];
      }
      assert entries[..|entries|] == entries;
    }

    /** The loop of `import_from_string`. */
    method ImportLines(valid: string -> bool, lines: seq<string>) returns (s: Summary)
      modifies this`rows
      ensures Summarises(s, old(rows), LinesEntries(valid, lines), rows)
      ensures s.skippedHashed == HashedLines(valid, lines)
    {
      s := Summary(0, 0, 0);
      for i := 0 to |lines|
        invariant Summarises(s, old(rows), LinesEntries(valid, lines[..i]), rows)
        invariant s.skippedHashed == HashedLines(valid, lines[..i])
      {
        ghost var middle, was := rows, s;
        s := ImportLine(valid, lines[i], s);
        LinesNext(valid, lines, i);
        SummariesAdd(
          was, s, old(rows), LinesEntries(valid, lines[..i]), middle, LineEntries(valid, lines[i]), rows);
      }
      assert lines[..|lines|] == lines;
    }

    /** `import_from_string`. */
    method ImportFromString(valid: string -> bool, content: string) returns (s: Summary)
      modifies this
      ensures Summarises(s, old(rows), FileEntries(valid, content), rows)
      ensures s.skippedHashed == HashedLines(valid, Split(content, '\n'))
      ensures published == old(published) + if rows == old(rows) then 0 else 1
    {
      s := ImportLines(valid, Split(content, '\n'));
      GrownTable(s, old(rows), FileEntries(valid, content), rows);
      if s.added > 0 {
        published := published + 1;
      }
    }

    /** `export_to_string`. */
    method ExportToString() returns (out: string)
      ensures IsExport(rows, out)
    {
      var keys: seq<HostPort> := [];
      var left := rows.Keys;
      while left != {}
        invariant left <= rows.Keys
        invariant forall k :: k in keys <==> k in rows.Keys - left
        invariant forall i, j :: 0 <= i < j < |keys| ==> keys[i] != keys[j]
        decreases left
      {
        var k :| k in left;
        assert k !in keys;
        keys := keys + [k];
        left := left - {k};
      }
      SortedKeys(keys);
      keys := Sort(keys, KeyLe);
      assert Lists(rows, keys);
      out := [];
      for i := 0 to |keys|
        invariant out + Render(rows, keys[i..]) == Render(rows, keys)
      {
        assert keys[i..][1..] == keys[i + 1..];
        ConcatAssoc(out, RowLine(rows, keys[i]) + ['\n'], Render(rows, keys[i + 1..]));
        out := out + (RowLine(rows, keys[i]) + ['\n']);
      }
    }
  }

  /** An import adds something exactly when it changes the table. */
  lemma GrownTable(s: Summary, before: Table, entries: seq<Entry>, after: Table)
    requires Summarises(s, before, entries, after)
    ensures s.added > 0 <==> after != before
  {
    assert forall hp :: hp in before ==> Get(after, hp) == Some(before[hp]);
    assert before.Keys <= after.Keys;
    if |after| == |before| {
      SameSize(before.Keys, after.Keys);
      assert after == before;
    }
  }

  lemma SortedKeys(keys: seq<HostPort>)
    requires forall i, j :: 0 <= i < j < |keys| ==> keys[i] != keys[j]
    ensures Ascending(Sort(keys, KeyLe), KeyLt)
    ensures forall k :: k in Sort(keys, KeyLe) <==> k in keys
  {
    KeyOrder();
    SortOk(keys, KeyLe);
    var r := Sort(keys, KeyLe);
    forall i, j | 0 <= i < j < |r| ensures KeyLt(r[i], r[j]) {
      SortDistinct(keys, KeyLe, i, j);
    }
    forall k ensures k in r <==> k in keys {
      SortMembers(keys, KeyLe, k);
    }
  }

  // ------------------------------------------------------------------ the round trip

  predicate RowWellFormed(valid: string -> bool, table: Table, hp: HostPort)
    requires hp in table
  {
    WellFormed(valid, hp, table[hp].keyType, table[hp].key)
  }

  ghost predicate TableWellFormed(valid: string -> bool, table: Table) {
    forall hp :: hp in table ==> RowWellFormed(valid, table, hp)
  }

  lemma {:induction false} FirstForNamed(entries: seq<Entry>, hp: HostPort)
    requires FirstFor(entries, hp).Some?
    ensures exists i :: 0 <= i < |entries| && Names(entries[i], hp) &&
                        FirstFor(entries, hp) == Some(Row(entries[i].keyType, entries[i].key))
  {
    if !Names(entries[0], hp) {
      FirstForNamed(entries[1..], hp);
      var i :| 0 <= i < |entries[1..]| && Names(entries[1..][i], hp) &&
               FirstFor(entries[1..], hp) == Some(Row(entries[1..][i].keyType, entries[1..][i].key));
      assert entries[i + 1] == entries[1..][i];
    }
  }

  lemma FileWellFormed(valid: string -> bool, content: string, hp: HostPort)
    requires FirstFor(FileEntries(valid, content), hp).Some?
    ensures
      var row := FirstFor(FileEntries(valid, content), hp).value;
      WellFormed(valid, hp, row.keyType, row.key)
  {
    var entries := FileEntries(valid, content);
    FirstForNamed(entries, hp);
    var i :| 0 <= i < |entries| && Names(entries[i], hp) &&
             FirstFor(entries, hp) == Some(Row(entries[i].keyType, entries[i].key));
    var lines := Split(content, '\n');
    var f := line => LineEntries(valid, line);
    assert entries == FlatMap(f, lines);
    FlatMapHas(f, lines, entries[i]);
    var k :| 0 <= k < |lines| && entries[i] in f(lines[k]);
    LineWellFormed(valid, lines[k], entries[i]);
  }

  /** Import keeps a table well-formed. */
  lemma ImportKeepsWellFormed(valid: string -> bool, before: Table, content: string, after: Table)
    requires TableWellFormed(valid, before) && Imported(before, FileEntries(valid, content), after)
    ensures TableWellFormed(valid, after)
  {
    forall hp | hp in after ensures RowWellFormed(valid, after, hp) {
      assert Get(after, hp) ==
             if hp in before then Some(before[hp]) else FirstFor(FileEntries(valid, content), hp);
      if hp in before {
        assert RowWellFormed(valid, before, hp);
      } else {
        FileWellFormed(valid, content, hp);
      }
    }
  }

  /** The entries of an export, row by row. */
  function RowEntries(table: Table, hp: HostPort): seq<Entry>
    requires hp in table
  {
    if PlainHost(hp.host) then [Entry(HostField(hp), table[hp].keyType, table[hp].key)] else []
  }

  function ExportEntries(table: Table, keys: seq<HostPort>): seq<Entry>
    requires forall k :: k in keys ==> k in table
  {
    if keys == [] then [] else RowEntries(table, keys[0]) + ExportEntries(table, keys[1..])
  }

  lemma ExportOneLine(hp: HostPort, keyType: string, key: string)
    requires Token(hp.host) && Token(keyType) && Token(key)
    ensures '\n' !in ExportLine(hp, keyType, key)
  {
    HostFieldToken(hp);
    OneLine(HostField(hp), keyType, key);
  }

  lemma OneLine(a: string, b: string, c: string)
    requires Token(a) && Token(b) && Token(c)
    ensures '\n' !in a + [' '] + b + [' '] + c
  {
  }

  lemma FileCons(valid: string -> bool, line: string, text: string)
    requires '\n' !in line
    ensures FileEntries(valid, line + ['\n'] + text) == LineEntries(valid, line) + FileEntries(valid, text)
  {
    SplitPrefix(line, text, '\n');
    FlatMapConcat(l => LineEntries(valid, l), [line], Split(text, '\n'));
    FlatMapOne(l => LineEntries(valid, l), line);
  }

  lemma EmptyFile(valid: string -> bool)
    ensures FileEntries(valid, []) == []
  {
  }

  lemma {:induction false} RenderEntries(valid: string -> bool, table: Table, keys: seq<HostPort>)
    requires forall k :: k in keys ==> k in table && RowWellFormed(valid, table, k)
    ensures FileEntries(valid, Render(table, keys)) == ExportEntries(table, keys)
  {
    if keys == [] {
      EmptyFile(valid);
    } else {
      var hp := keys[0];
      var row := table[hp];
      assert RowWellFormed(valid, table, hp);
      ExportOneLine(hp, row.keyType, row.key);
      ExportLineEntries(valid, hp, row.keyType, row.key);
      RenderEntries(valid, table, keys[1..]);
      FileCons(valid, RowLine(table, hp), Render(table, keys[1..]));
    }
  }

  lemma {:induction false} ExportFirst(valid: string -> bool, table: Table, keys: seq<HostPort>, hp: HostPort)
    requires forall k :: k in keys ==> k in table && RowWellFormed(valid, table, k)
    ensures FirstFor(ExportEntries(table, keys), hp) ==
            if hp in keys && PlainHost(hp.host) then Some(table[hp]) else None
  {
    if keys != [] {
      var k := keys[0];
      assert RowWellFormed(valid, table, k);
      ExportFirst(valid, table, keys[1..], hp);
      FirstForConcat(RowEntries(table, k), ExportEntries(table, keys[1..]), hp);
      if PlainHost(k.host) {
        SplitPlain(k.host, k.port);
      }
    }
  }

  /** Exporting a well-formed table and importing the text into an empty one restores
      exactly the rows with a plain host; IPv6 rows are lost. */
  lemma ExportImport(valid: string -> bool, table: Table, text: string, after: Table)
    requires TableWellFormed(valid, table) && IsExport(table, text)
    requires Imported(map[], FileEntries(valid, text), after)
    ensures after == map hp | hp in table && PlainHost(hp.host) :: table[hp]
  {
    var keys :| Lists(table, keys) && text == Render(table, keys);
    var kept: Table := map hp | hp in table && PlainHost(hp.host) :: table[hp];
    RenderEntries(valid, table, keys);
    forall hp ensures Get(after, hp) == Get(kept, hp) {
      ExportFirst(valid, table, keys, hp);
    }
    SameTable(after, kept);
  }

  /** Whether the round trip keeps a row: something a caller can check. */
  predicate Exportable(valid: string -> bool, hp: HostPort, row: Row) {
    WellFormed(valid, hp, row.keyType, row.key) && PlainHost(hp.host)
  }

  /** Export and import into an empty table restore any table at all exactly when each of
      its rows is exportable. */
  lemma RoundTripIff(valid: string -> bool, table: Table, text: string, after: Table)
    requires IsExport(table, text) && Imported(map[], FileEntries(valid, text), after)
    ensures after == table <==> forall hp :: hp in table ==> Exportable(valid, hp, table[hp])
  {
    if after == table {
      ImportKeepsWellFormed(valid, map[], text, after);
      ExportImport(valid, table, text, after);
    } else if forall hp :: hp in table ==> Exportable(valid, hp, table[hp]) {
      assert TableWellFormed(valid, table);
      ExportImport(valid, table, text, after);
      assert false;
    }
  }

  /** The table that importing `[::1]:22 t k` builds: its export brings back nothing. */
  lemma Ipv6RowIsLost(valid: string -> bool, text: string, after: Table)
    requires valid("k") && IsExport(map[HostPort("::1", 22) := Row("t", "k")], text)
    requires Imported(map[], FileEntries(valid, text), after)
    ensures after == map[]
  {
    var table := map[HostPort("::1", 22) := Row("t", "k")];
    assert TableWellFormed(valid, table);
    assert "::1"[0] == ':';
    ExportImport(valid, table, text, after);
  }

  /** Importing `host type key` gives the host's port 22 that key, unless it has one. */
  lemma BareHostImported(valid: string -> bool, before: Table, host: string, keyType: string, key: string, after: Table)
    requires Token(host) && PlainHost(host) && ',' !in host && Token(keyType) && Token(key) && valid(key)
    requires Imported(before, FileEntries(valid, Join([host, keyType, key], ' ')), after)
    ensures
      var hp := HostPort(host, 22);
      after == if hp in before then before else before[hp := Row(keyType, key)]
  {
    var line, hp := Join([host, keyType, key], ' '), HostPort(host, 22);
    BareHostLine(valid, host, keyType, key);
    JoinedOneLine(host, keyType, key);
    OneLineFile(valid, line);
    OneEntryImported(before, HostField(hp), hp, keyType, key, after);
  }

  lemma OneEntryImported(before: Table, hostPort: string, hp: HostPort, keyType: string, key: string, after: Table)
    requires SplitHostPort(hostPort) == Some(hp) && Imported(before, [Entry(hostPort, keyType, key)], after)
    ensures after == if hp in before then before else before[hp := Row(keyType, key)]
  {
    var expected := if hp in before then before else before[hp := Row(keyType, key)];
    var e := Entry(hostPort, keyType, key);
    forall other ensures Get(after, other) == Get(expected, other) {
      assert Names(e, other) <==> other == hp;
      assert FirstFor([e], other) == if other == hp then Some(Row(keyType, key)) else None;
    }
    SameTable(after, expected);
  }

  lemma JoinedOneLine(a: string, b: string, c: string)
    requires Token(a) && Token(b) && Token(c)
    ensures '\n' !in Join([a, b, c], ' ')
  {
    assert [a, b, c][1..] == [b, c] && [b, c][1..] == [c];
    assert Join([b, c], ' ') == b + [' '] + c;
    assert Join([a, b, c], ' ') == a + [' '] + (b + [' '] + c);
    OneLine(a, b, c);
  }

  lemma OneLineFile(valid: string -> bool, line: string)
    requires '\n' !in line
    ensures FileEntries(valid, line) == LineEntries(valid, line)
  {
    SplitPrefix(line, [], '\n');
    FlatMapOne(l => LineEntries(valid, l), line);
  }
}
