/**
 The QR payload: `encode_session_compact` of qr_codec_encode.rs and `parse_payload` of
 qr_codec_decode.rs with its session, key and link tables.  Base64, deflate and JSON text
 are left out: a payload is a JSON value.  Fresh session ids are drawn from `mint`.
*/
module QrCodec {
  import opened Wrappers
  import opened Text
  import opened JsonTree
  import opened JsonObjects

  /** The short keys of a payload. */
  datatype Key =
    | V | S | Km | C | Kh | Mk | St | Ss
    | L | H | U | P | G | A | Ki | Mg | Pw | I | T
    | Si | Ti | Ni

  function Name(k: Key): string {
    match k
    case V => "v"
    case S => "s"
    case Km => "km"
    case C => "c"
    case Kh => "kh"
    case Mk => "mk"
    case St => "st"
    case Ss => "ss"
    case L => "l"
    case H => "h"
    case U => "u"
    case P => "p"
    case G => "g"
    case A => "a"
    case Ki => "ki"
    case Mg => "mg"
    case Pw => "pw"
    case I => "i"
    case T => "t"
    case Si => "si"
    case Ti => "ti"
    case Ni => "ni"
  }

  lemma NameInjective(k: Key, l: Key)
    ensures Name(k) == Name(l) ==> k == l
  {
  }

  lemma NamesInjective()
    ensures Injective(Name)
  {
    forall k, l | Name(k) == Name(l) ensures k == l {
      NameInjective(k, l);
    }
  }

  function Get(ms: seq<Member>, k: Key): Option<Json> {
    Find(ms, Name(k))
  }

  function AsStr(j: Option<Json>): Option<string> {
    match j
    case Some(Str(s)) => Some(s)
    case _ => None
  }

  function StrOr(j: Option<Json>, default: string): string {
    match j
    case Some(Str(s)) => s
    case _ => default
  }

  // ------------------------------------------------------------- compact sessions

  type U16 = n: int | 0 <= n < 0x1_0000

  /** `SessionCompactInputs`. */
  datatype Compact = Compact(
    name: string, host: string, user: string, port: U16, folder: string, authType: string,
    keyShort: Option<string>, isManager: bool, includePasswords: bool, password: string)

  /** A decoded session row; its other columns are empty strings. */
  datatype SessionRow = SessionRow(
    id: string, name: string, folder: string, host: string, port: I64, user: string,
    authType: string, password: string, keyData: string, keyId: string)

  type KeyMap = map<string, string>

  function KeyIdOf(isManager: bool, short: Option<string>, keyMap: KeyMap): string {
    if isManager && short.Some? && short.value in keyMap then short.value else ""
  }

  function KeyDataOf(isManager: bool, short: Option<string>, keyMap: KeyMap): string {
    if !isManager && short.Some? && short.value in keyMap then keyMap[short.value] else ""
  }

  function PortOf(j: Option<Json>): I64 {
    match AsI64(j)
    case Some(i) => i
    case None => 22
  }

  /** A session from whatever `get` finds under each key. */
  function SessionFrom(get: Key -> Option<Json>, keyMap: KeyMap, id: string): SessionRow {
    var manager := AsI64(get(Mg)) == Some(1);
    var short := AsStr(get(Ki));
    SessionRow(
      id, StrOr(get(L), ""), StrOr(get(G), ""), StrOr(get(H), ""), PortOf(get(P)), StrOr(get(U), ""),
      StrOr(get(A), "password"), StrOr(get(Pw), ""), KeyDataOf(manager, short, keyMap), KeyIdOf(manager, short, keyMap))
  }

  function Getter(ms: seq<Member>): Key -> Option<Json> {
    k => Get(ms, k)
  }

  /** `decode_session`. */
  function DecodeSession(ms: seq<Member>, keyMap: KeyMap, id: string): SessionRow {
    SessionFrom(Getter(ms), keyMap, id)
  }

  /** What a compact session holds under each key. */
  function CompactField(x: Compact, k: Key): Option<Json> {
    match k
    case L => Some(Str(x.name))
    case H => Some(Str(x.host))
    case U => Some(Str(x.user))
    case P => When(x.port != 22, Num(PosInt(x.port)))
    case G => When(x.folder != "", Str(x.folder))
    case A => When(x.authType != "password", Str(x.authType))
    case Ki => (match x.keyShort case Some(short) => Some(Str(short)) case None => None)
    case Mg => When(x.isManager, Num(PosInt(1)))
    case Pw => When(x.includePasswords && x.password != "", Str(x.password))
    case _ => None
  }

  /** The object has exactly these keys. */
  ghost predicate IsCompact(x: Compact, j: Json) {
    && j.Obj? && Ordered(j.members)
    && (forall k {:trigger Get(j.members, k)} :: Get(j.members, k) == CompactField(x, k))
    && forall i :: 0 <= i < |j.members| ==> Known(Name, j.members[i].key)
  }

  const WRITTEN := {} + {L} + {H} + {U} + {P} + {G} + {A} + {Ki} + {Mg} + {Pw}

  lemma CompactDone(x: Compact, ms: seq<Member>, want: Key -> Option<Json>)
    requires Holds(ms, Name, want, WRITTEN) && forall k :: want(k) == CompactField(x, k)
    ensures IsCompact(x, Obj(ms))
  {
    forall k ensures Get(ms, k) == CompactField(x, k) {
      HoldsAt(ms, Name, want, WRITTEN, k);
    }
  }

  /** `encode_session_compact`. */
  method EncodeSessionCompact(x: Compact) returns (j: Json)
    ensures IsCompact(x, j)
  {
    NamesInjective();
    var m := new JsonMap<Key>(Name, k => CompactField(x, k));
    InsertBasics(m, x);
    InsertSecrets(m, x);
    CompactDone(x, m.members, m.want);
    j := Obj(m.members);
  }

  method InsertBasics(m: JsonMap<Key>, x: Compact)
    requires m.Valid() && forall k :: m.want(k) == CompactField(x, k)
    modifies m
    ensures m.Valid() && m.done == old(m.done) + {L} + {H} + {U} + {P} + {G} + {A}
  {
    m.Insert(L, Str(x.name));
    m.Insert(H, Str(x.host));
    m.Insert(U, Str(x.user));
    InsertPlace(m, x);
  }

  method InsertPlace(m: JsonMap<Key>, x: Compact)
    requires m.Valid() && forall k :: m.want(k) == CompactField(x, k)
    modifies m
    ensures m.Valid() && m.done == old(m.done) + {P} + {G} + {A}
  {
    if x.port != 22 {
      m.Insert(P, Num(PosInt(x.port)));
    } else {
      m.Omit(P);
    }
    if x.folder != "" {
      m.Insert(G, Str(x.folder));
    } else {
      m.Omit(G);
    }
    if x.authType != "password" {
      m.Insert(A, Str(x.authType));
    } else {
      m.Omit(A);
    }
  }

  method InsertSecrets(m: JsonMap<Key>, x: Compact)
    requires m.Valid() && forall k :: m.want(k) == CompactField(x, k)
    modifies m
    ensures m.Valid() && m.done == old(m.done) + {Ki} + {Mg} + {Pw}
  {
    if x.keyShort.Some? {
      m.Insert(Ki, Str(x.keyShort.value));
    } else {
      m.Omit(Ki);
    }
    if x.isManager {
      m.Insert(Mg, Num(PosInt(1)));
    } else {
      m.Omit(Mg);
    }
    if x.includePasswords && x.password != "" {
      m.Insert(Pw, Str(x.password));
    } else {
      m.Omit(Pw);
    }
  }

  ghost predicate Finds(x: Compact, get: Key -> Option<Json>, k: Key) {
    get(k) == CompactField(x, k)
  }

  lemma BasicsBack(x: Compact, get: Key -> Option<Json>)
    requires forall k :: Finds(x, get, k)
    ensures StrOr(get(L), "") == x.name && StrOr(get(G), "") == x.folder && StrOr(get(H), "") == x.host
    ensures PortOf(get(P)) == x.port && StrOr(get(U), "") == x.user && StrOr(get(A), "password") == x.authType
  {
    assert Finds(x, get, L) && Finds(x, get, H) && Finds(x, get, U) && Finds(x, get, P);
    assert Finds(x, get, G) && Finds(x, get, A);
  }

  lemma SecretsBack(x: Compact, get: Key -> Option<Json>)
    requires forall k :: Finds(x, get, k)
    ensures StrOr(get(Pw), "") == if x.includePasswords then x.password else ""
    ensures AsI64(get(Mg)) == Some(1) <==> x.isManager
    ensures AsStr(get(Ki)) == x.keyShort
  {
    assert Finds(x, get, Ki) && Finds(x, get, Mg) && Finds(x, get, Pw);
  }

  lemma SessionFromCompact(x: Compact, get: Key -> Option<Json>, keyMap: KeyMap, id: string)
    requires forall k :: Finds(x, get, k)
    ensures
      SessionFrom(get, keyMap, id) ==
      SessionRow(
        id, x.name, x.folder, x.host, x.port, x.user, x.authType,
        if x.includePasswords then x.password else "",
        KeyDataOf(x.isManager, x.keyShort, keyMap), KeyIdOf(x.isManager, x.keyShort, keyMap))
  {
    BasicsBack(x, get);
    SecretsBack(x, get);
  }

  /** Encoding and decoding a compact session recovers every field through the omitted
      defaults; a password only when the caller opted in, and the key as far as the key
      map has it. */
  lemma CompactRoundTrip(x: Compact, j: Json, keyMap: KeyMap, id: string)
    requires IsCompact(x, j)
    ensures
      DecodeSession(j.members, keyMap, id) ==
      SessionRow(
        id, x.name, x.folder, x.host, x.port, x.user, x.authType,
        if x.includePasswords then x.password else "",
        KeyDataOf(x.isManager, x.keyShort, keyMap), KeyIdOf(x.isManager, x.keyShort, keyMap))
  {
    forall k ensures Finds(x, Getter(j.members), k) {
      assert Get(j.members, k) == CompactField(x, k);
    }
    SessionFromCompact(x, Getter(j.members), keyMap, id);
  }

  // ------------------------------------------------------------------ the tables

  /** `parse_key_map`, entry by entry. */
  function KeyMapOf(ms: seq<Member>): KeyMap {
    if ms == [] then map[]
    else
      var rest := KeyMapOf(ms[..|ms| - 1]);
      var last := ms[|ms| - 1];
      if last.value.Str? then rest[last.key := last.value.text] else rest
  }

  function AsObject(j: Option<Json>): seq<Member> {
    match j
    case Some(Obj(ms)) => ms
    case _ => []
  }

  function AsArray(j: Option<Json>): seq<Json> {
    match j
    case Some(Arr(items)) => items
    case _ => []
  }

  function ShortOf(entry: Json): Option<string> {
    if entry.Obj? then AsStr(Get(entry.members, I)) else None
  }

  type Mint = nat -> string

  /** The rows of the entries that are objects; `decode` also gets the row's number. */
  function RowsBy(items: seq<Json>, decode: (seq<Member>, nat) -> SessionRow): seq<SessionRow> {
    if items == [] then []
    else
      var rest := RowsBy(items[..|items| - 1], decode);
      var last := items[|items| - 1];
      if last.Obj? then rest + [decode(last.members, |rest|)] else rest
  }

  function Decoder(keyMap: KeyMap, mint: Mint): (seq<Member>, nat) -> SessionRow {
    (ms: seq<Member>, n: nat) => DecodeSession(ms, keyMap, mint(n))
  }

  /** The session rows. */
  function Rows(items: seq<Json>, keyMap: KeyMap, mint: Mint): seq<SessionRow> {
    RowsBy(items, Decoder(keyMap, mint))
  }

  /** The number of rows of a table. */
  function Count(items: seq<Json>): nat {
    if items == [] then 0 else Count(items[..|items| - 1]) + if items[|items| - 1].Obj? then 1 else 0
  }

  /** From short id to fresh id. */
  function Remap(items: seq<Json>, mint: Mint): map<string, string> {
    if items == [] then map[]
    else
      var front, last := items[..|items| - 1], items[|items| - 1];
      match ShortOf(last)
      case Some(short) => Remap(front, mint)[short := mint(Count(front))]
      case None => Remap(front, mint)
  }

  lemma {:induction false} RowsCount(items: seq<Json>, decode: (seq<Member>, nat) -> SessionRow)
    ensures |RowsBy(items, decode)| == Count(items)
  {
    if items != [] {
      RowsCount(items[..|items| - 1], decode);
    }
  }

  lemma DecodedRow(ms: seq<Member>, keyMap: KeyMap, id: string)
    ensures DecodeSession(ms, keyMap, id).id == id
    ensures DecodeSession(ms, keyMap, id).keyId == "" || DecodeSession(ms, keyMap, id).keyId in keyMap
  {
  }

  /** `parse_sessions`. */
  method ParseSessions(ms: seq<Member>, keyMap: KeyMap, mint: Mint)
    returns (rows: seq<SessionRow>, remap: map<string, string>)
    ensures rows == Rows(AsArray(Get(ms, S)), keyMap, mint)
    ensures remap == Remap(AsArray(Get(ms, S)), mint)
  {
    var decode := Decoder(keyMap, mint);
    forall m: seq<Member>, n: nat ensures decode(m, n).id == mint(n) {
      DecodedRow(m, keyMap, mint(n));
    }
    rows, remap := ParseEntries(AsArray(Get(ms, S)), decode, mint);
  }

  /** The loop of `parse_sessions`. */
  method ParseEntries(items: seq<Json>, decode: (seq<Member>, nat) -> SessionRow, ghost mint: Mint)
    returns (rows: seq<SessionRow>, remap: map<string, string>)
    requires forall m, n: nat :: decode(m, n).id == mint(n)
    ensures rows == RowsBy(items, decode)
    ensures remap == Remap(items, mint)
  {
    rows, remap := [], map[];
    for i := 0 to |items|
      invariant rows == RowsBy(items[..i], decode)
      invariant remap == Remap(items[..i], mint)
    {
      RowsCount(items[..i], decode);
      assert items[..i + 1][..i] == items[..i];
      var entry := items[i];
      if entry.Obj? {
        var decoded := decode(entry.members, |rows|);
        var short := AsStr(Get(entry.members, I));
        if short.Some? {
          remap := remap[short.value := decoded.id];
        }
        rows := rows + [decoded];
      }
    }
    assert items[..|items|] == items;
  }

  datatype KeyRow = KeyRow(id: string, name: string, privateKey: string, publicKey: string, keyType: string)

  function KeyRowsOf(m: Member, keyMap: KeyMap): seq<KeyRow> {
    if m.key in keyMap && m.value.Obj? then
      var meta := m.value.members;
      [KeyRow(m.key, StrOr(Get(meta, L), ""), keyMap[m.key], StrOr(Get(meta, P), ""), StrOr(Get(meta, T), ""))]
    else []
  }

  /** `parse_manager_keys`. */
  method ParseManagerKeys(ms: seq<Member>, keyMap: KeyMap) returns (rows: seq<KeyRow>)
    ensures rows == KeyRows(AsObject(Get(ms, Mk)), keyMap)
  {
    rows := [];
    var mk := AsObject(Get(ms, Mk));
    ghost var f := m => KeyRowsOf(m, keyMap);
    for i := 0 to |mk|
      invariant rows == FlatMap(f, mk[..i])
    {
      FlatMapNext(f, mk, i);
      if mk[i].key !in keyMap || !mk[i].value.Obj? {
        continue;
      }
      var meta := mk[i].value.members;
      rows := rows + [KeyRow(mk[i].key, StrOr(Get(meta, L), ""), keyMap[mk[i].key], StrOr(Get(meta, P), ""),
                             StrOr(Get(meta, T), ""))];
    }
    assert mk[..|mk|] == mk;
  }

  datatype Link = Link(sessionId: string, other: string)

  function LinkOf(j: Json, other: Key, remap: map<string, string>): seq<Link> {
    if !j.Obj? then []
    else
      match (AsStr(Get(j.members, Si)), AsStr(Get(j.members, other)))
      case (Some(si), Some(o)) => if si in remap then [Link(remap[si], o)] else []
      case _ => []
  }

  /** `parse_remapped_session_links`. */
  function Links(ms: seq<Member>, key: Key, other: Key, remap: map<string, string>): seq<Link> {
    FlatMap(j => LinkOf(j, other, remap), AsArray(Get(ms, key)))
  }

  datatype Pending = Pending(
    sessions: seq<SessionRow>, keys: seq<KeyRow>, sessionTags: seq<Link>, sessionSnippets: seq<Link>, version: I64)

  const CURRENT_FORMAT_VERSION := 1

  function VersionOf(ms: seq<Member>): I64 {
    match AsI64(Get(ms, V))
    case Some(v) => v
    case None => 1
  }

  predicate Rejected(j: Json) {
    !j.Obj? || VersionOf(j.members) > CURRENT_FORMAT_VERSION ||
    (Get(j.members, S).None? && Get(j.members, Km).None? && Get(j.members, C).None? && Get(j.members, Kh).None?)
  }

  /** The tables of a payload. */
  function Tables(ms: seq<Member>, mint: Mint): Pending {
    var keyMap := KeyMapOf(AsObject(Get(ms, Km)));
    var items := AsArray(Get(ms, S));
    var remap := Remap(items, mint);
    Pending(
      Rows(items, keyMap, mint), KeyRows(AsObject(Get(ms, Mk)), keyMap),
      Links(ms, St, Ti, remap), Links(ms, Ss, Ni, remap), VersionOf(ms))
  }

  /** `parse_payload`. */
  method ParsePayload(j: Json, mint: Mint) returns (r: Result<Pending>)
    ensures r.Err? <==> Rejected(j)
    ensures r.Ok? ==> r.value == Tables(j.members, mint)
  {
    if !j.Obj? {
      return Err;
    }
    var ms := j.members;
    if VersionOf(ms) > CURRENT_FORMAT_VERSION {
      return Err;
    }
    if Get(ms, S).None? && Get(ms, Km).None? && Get(ms, C).None? && Get(ms, Kh).None? {
      return Err;
    }
    var keyMap := KeyMapOf(AsObject(Get(ms, Km)));
    var rows, remap := ParseSessions(ms, keyMap, mint);
    var keys := ParseManagerKeys(ms, keyMap);
    r := Ok(Pending(rows, keys, Links(ms, St, Ti, remap), Links(ms, Ss, Ni, remap), VersionOf(ms)));
  }

  // ------------------------------------------------------ links point at sessions

  /** Entry `p` is the last that carries the short id. */
  predicate LastWith(items: seq<Json>, short: string, p: int) {
    && 0 <= p < |items| && ShortOf(items[p]) == Some(short)
    && forall q :: p < q < |items| ==> ShortOf(items[q]) != Some(short)
  }

  /** An entry that is an object has its row after those of the entries before it. */
  lemma {:induction false} RowAt(items: seq<Json>, decode: (seq<Member>, nat) -> SessionRow, p: nat)
    requires p < |items| && items[p].Obj?
    ensures
      var n := Count(items[..p]);
      n < |RowsBy(items, decode)| && RowsBy(items, decode)[n] == decode(items[p].members, n)
  {
    var last := |items| - 1;
    RowsCount(items[..last], decode);
    if p < last {
      RowAt(items[..last], decode, p);
      assert items[..last][..p] == items[..p];
    }
  }

  /** A short id is mapped to the fresh id of the last entry that carries it. */
  lemma {:induction false} RemapIff(items: seq<Json>, mint: Mint, short: string)
    ensures short in Remap(items, mint) <==> exists p :: LastWith(items, short, p)
    ensures forall p :: LastWith(items, short, p) ==>
              short in Remap(items, mint) && Remap(items, mint)[short] == mint(Count(items[..p]))
  {
    if items != [] {
      var last := |items| - 1;
      var front := items[..last];
      if ShortOf(items[last]) == Some(short) {
        assert LastWith(items, short, last);
      } else {
        RemapIff(front, mint, short);
        forall p ensures LastWith(items, short, p) <==> LastWith(front, short, p) {
          LastWithFront(items, short, p);
        }
        forall p | LastWith(items, short, p)
          ensures short in Remap(items, mint) && Remap(items, mint)[short] == mint(Count(items[..p])) {
          assert LastWith(front, short, p);
          assert items[..p] == front[..p];
        }
      }
    }
  }

  lemma LastWithFront(items: seq<Json>, short: string, p: int)
    requires items != [] && ShortOf(items[|items| - 1]) != Some(short)
    ensures LastWith(items, short, p) <==> LastWith(items[..|items| - 1], short, p)
  {
    var front := items[..|items| - 1];
    assert forall q :: 0 <= q < |front| ==> front[q] == items[q];
    if LastWith(front, short, p) {
      forall q | p < q < |items| ensures ShortOf(items[q]) != Some(short) {
        assert q < |front| ==> ShortOf(front[q]) != Some(short);
      }
    }
  }

  /** A link object of the payload. */
  predicate Names(j: Json, other: Key, si: string, o: string) {
    j.Obj? && AsStr(Get(j.members, Si)) == Some(si) && AsStr(Get(j.members, other)) == Some(o)
  }

  /** `link` is the row for a link object that names `si`, and `si` is the short id of the
      session whose row has the link's session id. */
  ghost predicate LinkedTo(
    items: seq<Json>, keyMap: KeyMap, mint: Mint, j: Json, other: Key, link: Link, si: string, p: int)
  {
    && Names(j, other, si, link.other) && LastWith(items, si, p)
    && Count(items[..p]) < |Rows(items, keyMap, mint)|
    && link.sessionId == Rows(items, keyMap, mint)[Count(items[..p])].id
  }

  lemma LinkOfIff(j: Json, other: Key, remap: map<string, string>, link: Link)
    ensures link in LinkOf(j, other, remap) <==>
            exists si :: Names(j, other, si, link.other) && si in remap && remap[si] == link.sessionId
  {
    if link in LinkOf(j, other, remap) {
      assert Names(j, other, AsStr(Get(j.members, Si)).value, link.other);
    }
  }

  lemma LastIsObject(items: seq<Json>, keyMap: KeyMap, mint: Mint, si: string, p: int)
    requires LastWith(items, si, p)
    ensures Count(items[..p]) < |Rows(items, keyMap, mint)|
    ensures Rows(items, keyMap, mint)[Count(items[..p])].id == mint(Count(items[..p]))
  {
    RowAt(items, Decoder(keyMap, mint), p);
  }

  lemma KeptIsLinked(items: seq<Json>, keyMap: KeyMap, mint: Mint, j: Json, other: Key, link: Link)
    requires link in LinkOf(j, other, Remap(items, mint))
    ensures exists si, p :: LinkedTo(items, keyMap, mint, j, other, link, si, p)
  {
    var remap := Remap(items, mint);
    LinkOfIff(j, other, remap, link);
    var si :| Names(j, other, si, link.other) && si in remap && remap[si] == link.sessionId;
    RemapIff(items, mint, si);
    var p :| LastWith(items, si, p);
    LastIsObject(items, keyMap, mint, si, p);
    assert LinkedTo(items, keyMap, mint, j, other, link, si, p);
  }

  lemma LinkedIsKept(items: seq<Json>, keyMap: KeyMap, mint: Mint, j: Json, other: Key, link: Link, si: string, p: int)
    requires LinkedTo(items, keyMap, mint, j, other, link, si, p)
    ensures link in LinkOf(j, other, Remap(items, mint))
  {
    RemapIff(items, mint, si);
    LastIsObject(items, keyMap, mint, si, p);
    LinkOfIff(j, other, Remap(items, mint), link);
  }

  lemma LinkOfObject(items: seq<Json>, keyMap: KeyMap, mint: Mint, j: Json, other: Key, link: Link)
    ensures link in LinkOf(j, other, Remap(items, mint)) <==>
            exists si, p :: LinkedTo(items, keyMap, mint, j, other, link, si, p)
  {
    if link in LinkOf(j, other, Remap(items, mint)) {
      KeptIsLinked(items, keyMap, mint, j, other, link);
    }
    if si, p :| LinkedTo(items, keyMap, mint, j, other, link, si, p) {
      LinkedIsKept(items, keyMap, mint, j, other, link, si, p);
    }
  }

  /** A link row is there exactly when the payload has a link object for it whose short id
      some session entry carries; its session id is that of the row decoded from the last
      such entry. */
  lemma LinkKeptIff(ms: seq<Member>, key: Key, other: Key, keyMap: KeyMap, mint: Mint, link: Link)
    ensures
      var items, objects := AsArray(Get(ms, S)), AsArray(Get(ms, key));
      link in Links(ms, key, other, Remap(items, mint)) <==>
      exists k, si, p :: 0 <= k < |objects| && LinkedTo(items, keyMap, mint, objects[k], other, link, si, p)
  {
    var items, objects := AsArray(Get(ms, S)), AsArray(Get(ms, key));
    FlatMapHas(j => LinkOf(j, other, Remap(items, mint)), objects, link);
    forall k | 0 <= k < |objects|
      ensures link in LinkOf(objects[k], other, Remap(items, mint)) <==>
              exists si, p :: LinkedTo(items, keyMap, mint, objects[k], other, link, si, p) {
      LinkOfObject(items, keyMap, mint, objects[k], other, link);
    }
  }

  /** Every link row of a payload points at a session row of the payload. */
  lemma LinksPointAtSessions(ms: seq<Member>, mint: Mint, link: Link)
    requires link in Tables(ms, mint).sessionTags || link in Tables(ms, mint).sessionSnippets
    ensures exists n :: 0 <= n < |Tables(ms, mint).sessions| && Tables(ms, mint).sessions[n].id == link.sessionId
  {
    var keyMap := KeyMapOf(AsObject(Get(ms, Km)));
    LinkKeptIff(ms, St, Ti, keyMap, mint, link);
    LinkKeptIff(ms, Ss, Ni, keyMap, mint, link);
  }

  // ------------------------------------------------------------------ key references

  lemma {:induction false} RowIsDecoded(items: seq<Json>, decode: (seq<Member>, nat) -> SessionRow, n: nat)
    requires n < |RowsBy(items, decode)|
    ensures exists p :: 0 <= p < |items| && items[p].Obj? && RowsBy(items, decode)[n] == decode(items[p].members, n)
  {
    var last := |items| - 1;
    var front := items[..last];
    if n < |RowsBy(front, decode)| {
      RowIsDecoded(front, decode, n);
      var p :| 0 <= p < |front| && front[p].Obj? && RowsBy(front, decode)[n] == decode(front[p].members, n);
      assert items[p] == front[p];
    } else {
      assert items[last].Obj?;
    }
  }

  /** A kept key id has a PEM. */
  lemma KeyIdHasPem(items: seq<Json>, keyMap: KeyMap, mint: Mint, n: nat)
    requires n < |Rows(items, keyMap, mint)| && Rows(items, keyMap, mint)[n].keyId != ""
    ensures Rows(items, keyMap, mint)[n].keyId in keyMap
  {
    var decode := Decoder(keyMap, mint);
    RowIsDecoded(items, decode, n);
    var p :| 0 <= p < |items| && items[p].Obj? && RowsBy(items, decode)[n] == decode(items[p].members, n);
    DecodedRow(items[p].members, keyMap, mint(n));
  }

  function KeyRows(mk: seq<Member>, keyMap: KeyMap): seq<KeyRow> {
    FlatMap(m => KeyRowsOf(m, keyMap), mk)
  }

  predicate Describes(m: Member, id: string) {
    m.key == id && m.value.Obj?
  }

  lemma KeyRowOk(m: Member, keyMap: KeyMap, row: KeyRow)
    requires row in KeyRowsOf(m, keyMap)
    ensures Describes(m, row.id) && row.id in keyMap && row.privateKey == keyMap[row.id]
  {
  }

  /** The key rows: each has its PEM, and every described key with a PEM has one. */
  lemma KeyRowsIff(mk: seq<Member>, keyMap: KeyMap, id: string)
    requires id in keyMap
    ensures forall row :: row in KeyRows(mk, keyMap) && row.id == id ==> row.privateKey == keyMap[id]
    ensures (exists row :: row in KeyRows(mk, keyMap) && row.id == id) <==>
            exists i :: 0 <= i < |mk| && Describes(mk[i], id)
  {
    var f := m => KeyRowsOf(m, keyMap);
    forall row | row in KeyRows(mk, keyMap) && row.id == id
      ensures row.privateKey == keyMap[id] && exists i :: 0 <= i < |mk| && Describes(mk[i], id) {
      FlatMapHas(f, mk, row);
      var i :| 0 <= i < |mk| && row in f(mk[i]);
      KeyRowOk(mk[i], keyMap, row);
    }
    if i :| 0 <= i < |mk| && Describes(mk[i], id) {
      var row := f(mk[i])[0];
      FlatMapHas(f, mk, row);
      KeyRowOk(mk[i], keyMap, row);
    }
  }

  /** A kept key id has a PEM; a key row with that PEM is emitted for it exactly when the
      payload describes the key by an object. */
  lemma KeyIdResolvesIff(ms: seq<Member>, mint: Mint, n: nat)
    requires n < |Tables(ms, mint).sessions| && Tables(ms, mint).sessions[n].keyId != ""
    ensures
      var keyMap, mk := KeyMapOf(AsObject(Get(ms, Km))), AsObject(Get(ms, Mk));
      var t := Tables(ms, mint);
      var id := t.sessions[n].keyId;
      && id in keyMap
      && (forall row :: row in t.keys && row.id == id ==> row.privateKey == keyMap[id])
      && ((exists row :: row in t.keys && row.id == id) <==> exists i :: 0 <= i < |mk| && Describes(mk[i], id))
  {
    var keyMap := KeyMapOf(AsObject(Get(ms, Km)));
    KeyIdHasPem(AsArray(Get(ms, S)), keyMap, mint, n);
    KeyRowsIff(AsObject(Get(ms, Mk)), keyMap, Tables(ms, mint).sessions[n].keyId);
  }

  /** Without `mk`, a session that refers to a key with a PEM keeps its key id, and no key
      row is emitted: the reference dangles. */
  lemma KeyIdDanglesWithoutMk(ms: seq<Member>, mint: Mint, x: Compact, j: Json, short: string)
    requires IsCompact(x, j) && x.isManager && x.keyShort == Some(short) && short in KeyMapOf(AsObject(Get(ms, Km)))
    requires Get(ms, S) == Some(Arr([j])) && Get(ms, Mk) == None
    ensures |Tables(ms, mint).sessions| == 1 && Tables(ms, mint).sessions[0].keyId == short
    ensures Tables(ms, mint).keys == []
  {
    var keyMap := KeyMapOf(AsObject(Get(ms, Km)));
    RowsCount([j], Decoder(keyMap, mint));
    RowAt([j], Decoder(keyMap, mint), 0);
    CompactRoundTrip(x, j, keyMap, mint(0));
  }

  // ------------------------------------------------------ the payload, by its keys

  /** Object `k` links, under `other`, the session that the last entry with its short id
      was decoded to. */
  ghost predicate Linking(
      objects: seq<Json>, other: string, items: seq<Json>, sessions: seq<SessionRow>, link: Link, k: int, si: string,
      p: int)
  {
    && 0 <= k < |objects| && objects[k].Obj?
    && Find(objects[k].members, "si") == Some(Str(si)) && Find(objects[k].members, other) == Some(Str(link.other))
    && 0 <= p < |items| && items[p].Obj? && Find(items[p].members, "i") == Some(Str(si))
    && (forall q :: p < q < |items| && items[q].Obj? ==> Find(items[q].members, "i") != Some(Str(si)))
    && Count(items[..p]) < |sessions| && link.sessionId == sessions[Count(items[..p])].id
  }

  /** An entry with a short id, and a link object, by their keys. */
  lemma ByKeys(j: Json, other: Key, si: string, o: string)
    ensures ShortOf(j) == Some(si) <==> j.Obj? && Find(j.members, "i") == Some(Str(si))
    ensures Names(j, other, si, o) <==>
            j.Obj? && Find(j.members, "si") == Some(Str(si)) && Find(j.members, Name(other)) == Some(Str(o))
  {
  }

  lemma LinkingIff(
      objects: seq<Json>, other: Key, items: seq<Json>, keyMap: KeyMap, mint: Mint, link: Link, k: int, si: string,
      p: int)
    ensures
      Linking(objects, Name(other), items, Rows(items, keyMap, mint), link, k, si, p) <==>
      0 <= k < |objects| && LinkedTo(items, keyMap, mint, objects[k], other, link, si, p)
  {
    if 0 <= k < |objects| {
      ByKeys(objects[k], other, si, link.other);
      forall q | 0 <= q < |items|
        ensures ShortOf(items[q]) == Some(si) <==> items[q].Obj? && Find(items[q].members, "i") == Some(Str(si))
      {
        ByKeys(items[q], other, si, link.other);
      }
    }
  }

  ghost predicate LinkedUnder(
      objects: seq<Json>, other: string, items: seq<Json>, sessions: seq<SessionRow>, link: Link)
  {
    exists k, si, p :: Linking(objects, other, items, sessions, link, k, si, p)
  }

  lemma LinksSay(ms: seq<Member>, key: Key, other: Key, keyMap: KeyMap, mint: Mint, link: Link)
    ensures
      var items := AsArray(Get(ms, S));
      link in Links(ms, key, other, Remap(items, mint)) <==>
      LinkedUnder(AsArray(Get(ms, key)), Name(other), items, Rows(items, keyMap, mint), link)
  {
    var items, objects := AsArray(Get(ms, S)), AsArray(Get(ms, key));
    LinkKeptIff(ms, key, other, keyMap, mint, link);
    forall k, si, p
      ensures Linking(objects, Name(other), items, Rows(items, keyMap, mint), link, k, si, p) <==>
              0 <= k < |objects| && LinkedTo(items, keyMap, mint, objects[k], other, link, si, p)
    {
      LinkingIff(objects, other, items, keyMap, mint, link, k, si, p);
    }
  }

  lemma KeysAreNamed(ms: seq<Member>)
    ensures Get(ms, S) == Find(ms, "s") && Get(ms, St) == Find(ms, "st") && Get(ms, Ss) == Find(ms, "ss")
    ensures Name(Ti) == "ti" && Name(Ni) == "ni"
  {
  }

  lemma TablesParts(ms: seq<Member>, mint: Mint)
    ensures
      var t, items := Tables(ms, mint), AsArray(Get(ms, S));
      && t.sessions == Rows(items, KeyMapOf(AsObject(Get(ms, Km))), mint)
      && t.sessionTags == Links(ms, St, Ti, Remap(items, mint))
      && t.sessionSnippets == Links(ms, Ss, Ni, Remap(items, mint))
  {
  }

  /** A session-tag row is there exactly when an object under `st` links a decoded session
      to a tag under `ti`. */
  lemma SessionTagIff(ms: seq<Member>, mint: Mint, link: Link)
    ensures
      var t := Tables(ms, mint);
      link in t.sessionTags <==> LinkedUnder(AsArray(Find(ms, "st")), "ti", AsArray(Find(ms, "s")), t.sessions, link)
  {
    KeysAreNamed(ms);
    TablesParts(ms, mint);
    LinksSay(ms, St, Ti, KeyMapOf(AsObject(Get(ms, Km))), mint, link);
  }

  /** And a session-snippet row for an object under `ss` and its `ni`. */
  lemma SessionSnippetIff(ms: seq<Member>, mint: Mint, link: Link)
    ensures
      var t := Tables(ms, mint);
      link in t.sessionSnippets <==>
      LinkedUnder(AsArray(Find(ms, "ss")), "ni", AsArray(Find(ms, "s")), t.sessions, link)
  {
    KeysAreNamed(ms);
    TablesParts(ms, mint);
    LinksSay(ms, Ss, Ni, KeyMapOf(AsObject(Get(ms, Km))), mint, link);
  }

  function TextUnder(ms: seq<Member>, key: string, default: string): string {
    match Find(ms, key)
    case Some(Str(s)) => s
    case _ => default
  }

  /** A session row, by the keys of its entry; the port is 22 and the authentication by
      password unless the entry says otherwise. */
  lemma SessionSays(ms: seq<Member>, keyMap: KeyMap, id: string)
    ensures
      var row := DecodeSession(ms, keyMap, id);
      && row.id == id && row.name == TextUnder(ms, "l", "") && row.folder == TextUnder(ms, "g", "")
      && row.host == TextUnder(ms, "h", "") && row.user == TextUnder(ms, "u", "")
  {
  }

  lemma SessionLoginSays(get: Key -> Option<Json>, keyMap: KeyMap, id: string)
    ensures
      var row := SessionFrom(get, keyMap, id);
      && row.authType == StrOr(get(A), "password") && row.password == StrOr(get(Pw), "")
      && row.port == (if AsI64(get(P)).Some? then AsI64(get(P)).value else 22)
  {
  }

  /** The keys, as they stand in a payload. */
  lemma NameTable()
    ensures Name(V) == "v" && Name(S) == "s" && Name(Km) == "km" && Name(C) == "c" && Name(Kh) == "kh"
    ensures Name(Mk) == "mk" && Name(St) == "st" && Name(Ss) == "ss" && Name(Si) == "si" && Name(Ti) == "ti"
    ensures Name(Ni) == "ni" && Name(I) == "i" && Name(L) == "l" && Name(H) == "h" && Name(U) == "u"
    ensures Name(P) == "p" && Name(G) == "g" && Name(A) == "a" && Name(Ki) == "ki" && Name(Mg) == "mg"
    ensures Name(Pw) == "pw" && Name(T) == "t"
  {
  }

  /** Its key: a manager's is named, another's is brought along, both only if it has a PEM. */
  lemma SessionKeySays(ms: seq<Member>, keyMap: KeyMap, id: string, short: string)
    requires Find(ms, "ki") == Some(Str(short))
    ensures
      var row := DecodeSession(ms, keyMap, id);
      && row.keyId == (if AsI64(Find(ms, "mg")) == Some(1) && short in keyMap then short else "")
      && row.keyData == (if AsI64(Find(ms, "mg")) != Some(1) && short in keyMap then keyMap[short] else "")
  {
    GetterSays(ms);
    KeyFields(Getter(ms), keyMap, id, short);
  }

  lemma GetterSays(ms: seq<Member>)
    ensures Getter(ms)(Ki) == Find(ms, "ki") && Getter(ms)(Mg) == Find(ms, "mg")
  {
  }

  lemma KeyFields(get: Key -> Option<Json>, keyMap: KeyMap, id: string, short: string)
    requires get(Ki) == Some(Str(short))
    ensures
      var row := SessionFrom(get, keyMap, id);
      && row.keyId == (if AsI64(get(Mg)) == Some(1) && short in keyMap then short else "")
      && row.keyData == (if AsI64(get(Mg)) != Some(1) && short in keyMap then keyMap[short] else "")
  {
  }

  /** A key row, by the keys of its description. */
  lemma KeyRowSays(m: Member, keyMap: KeyMap)
    requires m.key in keyMap && m.value.Obj?
    ensures
      KeyRowsOf(m, keyMap) ==
      [KeyRow(m.key, TextUnder(m.value.members, "l", ""), keyMap[m.key], TextUnder(m.value.members, "p", ""),
              TextUnder(m.value.members, "t", ""))]
  {
  }

  /** Which payloads are refused, by their keys. */
  lemma RejectedIff(ms: seq<Member>)
    ensures
      Rejected(Obj(ms)) <==>
      (AsI64(Find(ms, "v")).Some? && AsI64(Find(ms, "v")).value > 1) ||
      (Find(ms, "s").None? && Find(ms, "km").None? && Find(ms, "c").None? && Find(ms, "kh").None?)
  {
  }

  /** The version a payload claims, 1 by default. */
  lemma VersionSays(ms: seq<Member>, mint: Mint, n: I64)
    requires n >= 0
    ensures Find(ms, "v") == Some(Num(PosInt(n))) ==> Tables(ms, mint).version == n
    ensures Find(ms, "v") == None ==> Tables(ms, mint).version == 1
  {
  }

  /** A compact session, by its keys. */
  lemma CompactSays(x: Compact, j: Json)
    requires IsCompact(x, j)
    ensures Find(j.members, "l") == Some(Str(x.name)) && Find(j.members, "h") == Some(Str(x.host))
    ensures Find(j.members, "u") == Some(Str(x.user))
  {
    assert Get(j.members, L) == CompactField(x, L) && Get(j.members, H) == CompactField(x, H);
    assert Get(j.members, U) == CompactField(x, U);
  }

  lemma CompactOptionsSay(x: Compact, j: Json)
    requires IsCompact(x, j)
    ensures Find(j.members, "p") == if x.port == 22 then None else Some(Num(PosInt(x.port)))
    ensures Find(j.members, "g") == if x.folder == "" then None else Some(Str(x.folder))
    ensures Find(j.members, "a") == if x.authType == "password" then None else Some(Str(x.authType))
  {
    assert Get(j.members, P) == CompactField(x, P) && Get(j.members, G) == CompactField(x, G);
    assert Get(j.members, A) == CompactField(x, A);
  }

  lemma CompactSecretsSay(x: Compact, j: Json)
    requires IsCompact(x, j)
    ensures Find(j.members, "ki") == if x.keyShort.Some? then Some(Str(x.keyShort.value)) else None
    ensures Find(j.members, "mg") == if x.isManager then Some(Num(PosInt(1))) else None
    ensures Find(j.members, "pw") == if x.includePasswords && x.password != "" then Some(Str(x.password)) else None
  {
    assert Get(j.members, Ki) == CompactField(x, Ki) && Get(j.members, Mg) == CompactField(x, Mg);
    assert Get(j.members, Pw) == CompactField(x, Pw);
  }

  /** A session without a key reference has no key. */
  lemma NoKeySays(get: Key -> Option<Json>, keyMap: KeyMap, id: string)
    requires AsStr(get(Ki)) == None
    ensures SessionFrom(get, keyMap, id).keyId == "" && SessionFrom(get, keyMap, id).keyData == ""
  {
  }

  /** The key map holds the last text under each key, and nothing else. */
  lemma {:induction false} KeyMapLast(ms: seq<Member>, i: nat)
    requires i < |ms| && ms[i].value.Str?
    requires forall j :: i < j < |ms| ==> !(ms[j].value.Str? && ms[j].key == ms[i].key)
    ensures ms[i].key in KeyMapOf(ms) && KeyMapOf(ms)[ms[i].key] == ms[i].value.text
  {
    var n := |ms| - 1;
    if i < n {
      assert ms[..n][i] == ms[i];
      KeyMapLast(ms[..n], i);
    }
  }

  lemma {:induction false} KeyMapUnknown(ms: seq<Member>, key: string)
    requires forall i :: 0 <= i < |ms| ==> !(ms[i].value.Str? && ms[i].key == key)
    ensures key !in KeyMapOf(ms)
  {
    if ms != [] {
      KeyMapUnknown(ms[..|ms| - 1], key);
    }
  }
}
