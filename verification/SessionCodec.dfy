/**
 The canonical session payload of session_json.rs: the encoder, the tolerant decoder, the
 session array and the undo snapshot envelope.

 A payload is the JSON value; printing it and parsing it back are inverse and left out.
 The parser enters as `parse`, for the `extras` column, which holds JSON text.
*/
module SessionCodec {
  import opened Wrappers
  import opened JsonTree
  import opened JsonObjects

  const U32_LIMIT := 0x1_0000_0000
  const I32_LIMIT := 0x8000_0000

  type U32 = n: int | 0 <= n < U32_LIMIT
  type I32 = n: int | -I32_LIMIT <= n < I32_LIMIT

  /** The keys of the payloads. */
  datatype Field =
    | Id | LabelText | Folder | Group | Kind | Host | Port | User | AuthType | KeyId | KeyPath
    | CreatedAt | UpdatedAt | Extras | ViaSessionId | ViaOverride | Notes | SortOrder
    | LastConnectedAtMs | Password | KeyData | Passphrase | Sessions | EmptyFolders | Description

  function Name(f: Field): string {
    match f
    case Id => "id"
    case LabelText => "label"
    case Folder => "folder"
    case Group => "group"
    case Kind => "kind"
    case Host => "host"
    case Port => "port"
    case User => "user"
    case AuthType => "auth_type"
    case KeyId => "key_id"
    case KeyPath => "key_path"
    case CreatedAt => "created_at"
    case UpdatedAt => "updated_at"
    case Extras => "extras"
    case ViaSessionId => "via_session_id"
    case ViaOverride => "via_override"
    case Notes => "notes"
    case SortOrder => "sort_order"
    case LastConnectedAtMs => "last_connected_at_ms"
    case Password => "password"
    case KeyData => "key_data"
    case Passphrase => "passphrase"
    case Sessions => "sessions"
    case EmptyFolders => "emptyFolders"
    case Description => "description"
  }

  datatype Override = Override(host: string, port: U32, user: string)

  /** `SessionJsonInput`. */
  datatype Input = Input(
    id: string, name: string, folder: string, host: string, port: U32, user: string, kind: string,
    authType: string, keyId: string, keyPath: string, createdAt: string, updatedAt: string,
    extrasJson: string, viaSessionId: Option<string>, viaOverride: Option<Override>, notes: string,
    sortOrder: I32, lastConnected: Option<I64>, includeCredentials: bool, password: string,
    keyData: string, passphrase: string)

  /** `SessionJsonOutput`. */
  datatype Output = Output(
    id: string, name: string, folder: string, host: string, port: U32, user: string, kind: string,
    authType: string, keyId: string, keyPath: string, createdAt: string, updatedAt: string,
    extras: seq<Pair>, viaSessionId: Option<string>, viaOverride: Option<Override>, notes: string,
    sortOrder: I32, lastConnected: Option<I64>, password: string, keyData: string, passphrase: string)

  type Parser = string -> Option<Json>

  // --------------------------------------------------------------------- decoding

  function Get(ms: seq<Member>, f: Field): Option<Json> {
    Find(ms, Name(f))
  }

  function AsStringOr(j: Option<Json>, default: string): string {
    if AsString(j) == "" then default else AsString(j)
  }

  /** `f as u32`: toward zero, saturating. */
  function FloatAsU32(f: real): U32 {
    if f < 0.0 then 0 else if f.Floor >= U32_LIMIT then U32_LIMIT - 1 else f.Floor
  }

  function AsPort(j: Option<Json>): U32 {
    match j
    case Some(Num(PosInt(u))) => u % U32_LIMIT
    case Some(Num(NegInt(i))) => FloatAsU32(i as real)
    case Some(Num(Float(f))) => FloatAsU32(f)
    case _ => 22
  }

  function AsOverridePort(j: Option<Json>): U32 {
    match j
    case Some(Num(PosInt(u))) => u % U32_LIMIT
    case _ => 22
  }

  /** `i as i32`. */
  function WrapI32(i: int): I32 {
    (i + I32_LIMIT) % U32_LIMIT - I32_LIMIT
  }

  function AsSortOrder(j: Option<Json>): I32 {
    match AsI64(j)
    case Some(i) => WrapI32(i)
    case None => 0
  }

  function AsViaSessionId(j: Option<Json>): Option<string> {
    match j
    case Some(Str(s)) => Some(s)
    case _ => None
  }

  function AsFolder(folder: Option<Json>, legacyGroup: Option<Json>): string {
    match folder
    case Some(Str(s)) => s
    case _ => AsString(legacyGroup)
  }

  function AsOverride(j: Option<Json>): Option<Override> {
    match j
    case Some(Obj(via)) =>
      Some(Override(AsString(Get(via, Host)), AsOverridePort(Get(via, Port)), AsString(Get(via, User))))
    case _ => None
  }

  /** `decode_extras`. */
  function DecodeExtras(parse: Parser, raw: Option<Json>): seq<Pair> {
    match raw
    case Some(Obj(ms)) => FromValue(Obj(ms)).pairs
    case Some(Str(s)) => DecodeExtrasString(parse, s)
    case _ => []
  }

  /** `decode_extras_string`: the extras column as it is stored. */
  function DecodeExtrasString(parse: Parser, s: string): seq<Pair> {
    if s == "" then []
    else match parse(s)
      case Some(Obj(ms)) => FromValue(Obj(ms)).pairs
      case _ => []
  }

  /** The fields of a session, whatever `get` finds under each key. */
  function DecodeFields(get: Field -> Option<Json>, extras: seq<Pair>, over: Option<Override>): Output {
    Output(
      AsString(get(Id)), AsString(get(LabelText)), AsFolder(get(Folder), get(Group)),
      AsString(get(Host)), AsPort(get(Port)), AsString(get(User)),
      AsStringOr(get(Kind), "ssh"), AsStringOr(get(AuthType), "password"),
      AsString(get(KeyId)), AsString(get(KeyPath)),
      AsString(get(CreatedAt)), AsString(get(UpdatedAt)),
      extras, AsViaSessionId(get(ViaSessionId)), over, AsString(get(Notes)), AsSortOrder(get(SortOrder)),
      AsI64(get(LastConnectedAtMs)), AsString(get(Password)), AsString(get(KeyData)),
      AsString(get(Passphrase)))
  }

  function Getter(ms: seq<Member>): Field -> Option<Json> {
    f => Get(ms, f)
  }

  function DecodeObject(parse: Parser, ms: seq<Member>): Output {
    DecodeFields(Getter(ms), DecodeExtras(parse, Get(ms, Extras)), AsOverride(Get(ms, ViaOverride)))
  }

  /** `decode_canonical_json`. */
  function DecodeCanonicalJson(parse: Parser, j: Json): Result<Output> {
    if j.Obj? then Ok(DecodeObject(parse, j.members)) else Err
  }

  /** `map(f).collect()` into a `Result`. */
  function CollectResults<A, B>(f: A -> Result<B>, items: seq<A>): Result<seq<B>> {
    if items == [] then Ok([])
    else match (CollectResults(f, items[..|items| - 1]), f(items[|items| - 1]))
      case (Ok(front), Ok(last)) => Ok(front + [last])
      case _ => Err
  }

  /** `decode_session_array`. */
  function DecodeSessionArray(parse: Parser, j: Json): Result<seq<Output>> {
    if j.Arr? then CollectResults(v => DecodeCanonicalJson(parse, v), j.items) else Err
  }

  datatype Envelope<T> = Envelope(sessions: seq<T>, emptyFolders: seq<string>, description: string)

  function Strings(items: seq<Json>): seq<string> {
    if items == [] then []
    else Strings(items[..|items| - 1]) + (match items[|items| - 1] case Str(s) => [s] case _ => [])
  }

  function SessionsIn(parse: Parser, j: Option<Json>): Result<seq<Output>> {
    match j
    case Some(v) => DecodeSessionArray(parse, v)
    case None => Ok([])
  }

  function FoldersIn(j: Option<Json>): seq<string> {
    match j
    case Some(Arr(items)) => Strings(items)
    case _ => []
  }

  function Assemble(
      sessions: Result<seq<Output>>, folders: seq<string>, description: string): Result<Envelope<Output>>
  {
    match sessions
    case Ok(list) => Ok(Envelope(list, folders, description))
    case Err => Err
  }

  /** `decode_snapshot_envelope`. */
  function DecodeSnapshotEnvelope(parse: Parser, j: Json): Result<Envelope<Output>> {
    if !j.Obj? then Err
    else
      Assemble(
        SessionsIn(parse, Get(j.members, Sessions)), FoldersIn(Get(j.members, EmptyFolders)),
        AsString(Get(j.members, Description)))
  }

  // ------------------------------------------------------- what the encoder writes

  predicate Malformed(parse: Parser, s: string) {
    s != "" && parse(s).None?
  }

  function ExtrasJson(parse: Parser, s: string): Option<Json> {
    var parsed: Option<Json> := if s == "" then None else parse(s);
    match parsed
    case Some(Obj(ms)) => When(ms != [], Obj(ms))
    case _ => None
  }

  function OverrideField(o: Override, f: Field): Option<Json> {
    match f
    case Host => Some(Str(o.host))
    case Port => Some(Num(PosInt(o.port)))
    case User => Some(Str(o.user))
    case _ => None
  }

  const OVERRIDE_KEYS := [Host, Port, User]

  function OverrideMembers(o: Override): seq<Member> {
    Fill(Name, f => OverrideField(o, f), OVERRIDE_KEYS)
  }

  /** The value a payload holds under each key, if it has the key. */
  function Wire(parse: Parser, x: Input, f: Field): Option<Json> {
    match f
    case Id => Some(Str(x.id))
    case LabelText => Some(Str(x.name))
    case Folder => Some(Str(x.folder))
    case Kind => When(x.kind != "" && x.kind != "ssh", Str(x.kind))
    case Host => Some(Str(x.host))
    case Port => Some(Num(PosInt(x.port)))
    case User => Some(Str(x.user))
    case AuthType => Some(Str(x.authType))
    case KeyId => When(x.keyId != "", Str(x.keyId))
    case KeyPath => Some(Str(x.keyPath))
    case CreatedAt => Some(Str(x.createdAt))
    case UpdatedAt => Some(Str(x.updatedAt))
    case Extras => ExtrasJson(parse, x.extrasJson)
    case ViaSessionId => (match x.viaSessionId case Some(via) => When(via != "", Str(via)) case None => None)
    case ViaOverride => (match x.viaOverride case Some(over) => Some(Obj(OverrideMembers(over))) case None => None)
    case Notes => When(x.notes != "", Str(x.notes))
    case SortOrder => When(x.sortOrder != 0, Num(ToNumber(x.sortOrder)))
    case LastConnectedAtMs => (match x.lastConnected case Some(ms) => Some(Num(ToNumber(ms))) case None => None)
    case Password => When(x.includeCredentials, Str(x.password))
    case KeyData => When(x.includeCredentials, Str(x.keyData))
    case Passphrase => When(x.includeCredentials, Str(x.passphrase))
    case _ => None
  }

  /** A payload of `x`: the keys that `Wire` says, and no other. */
  ghost predicate IsPayload(parse: Parser, x: Input, j: Json) {
    && j.Obj? && Ordered(j.members)
    && (forall f {:trigger Get(j.members, f)} :: Get(j.members, f) == Wire(parse, x, f))
    && forall i :: 0 <= i < |j.members| ==> Known(Name, j.members[i].key)
  }

  lemma NameInjective(f: Field, g: Field)
    ensures Name(f) == Name(g) ==> f == g
  {
  }

  lemma NamesInjective()
    ensures Injective(Name)
  {
    forall f, g | Name(f) == Name(g) ensures f == g {
      NameInjective(f, g);
    }
  }

  // -------------------------------------------------------------------- encoding

  /** The object is meant to become the payload of `x`. */
  ghost predicate Encodes(obj: JsonMap<Field>, parse: Parser, x: Input) {
    forall f :: obj.want(f) == Wire(parse, x, f)
  }

  /** `insert_extras`. */
  method InsertExtras(parse: Parser, obj: JsonMap<Field>, x: Input) returns (r: Result<()>)
    requires obj.Valid() && Encodes(obj, parse, x)
    modifies obj
    ensures obj.Valid()
    ensures r.Err? <==> Malformed(parse, x.extrasJson)
    ensures r.Ok? ==> obj.done == old(obj.done) + {Extras}
  {
    if x.extrasJson == "" {
      obj.Omit(Extras);
      return Ok(());
    }
    var parsed := parse(x.extrasJson);
    if parsed.None? {
      return Err;
    }
    if parsed.value.Obj? && parsed.value.members != [] {
      obj.Insert(Extras, parsed.value);
    } else {
      obj.Omit(Extras);
    }
    r := Ok(());
  }

  /** `insert_via`. */
  method InsertVia(ghost parse: Parser, obj: JsonMap<Field>, x: Input)
    requires obj.Valid() && Encodes(obj, parse, x)
    modifies obj
    ensures obj.Valid() && obj.done == old(obj.done) + VIA
  {
    if x.viaSessionId.Some? && x.viaSessionId.value != "" {
      obj.Insert(ViaSessionId, Str(x.viaSessionId.value));
    } else {
      obj.Omit(ViaSessionId);
    }
    if x.viaOverride.Some? {
      obj.Insert(ViaOverride, Obj(OverrideMembers(x.viaOverride.value)));
    } else {
      obj.Omit(ViaOverride);
    }
  }

  /** `insert_optional_scalars`. */
  method InsertOptionalScalars(ghost parse: Parser, obj: JsonMap<Field>, x: Input)
    requires obj.Valid() && Encodes(obj, parse, x)
    modifies obj
    ensures obj.Valid() && obj.done == old(obj.done) + SCALARS
  {
    if x.notes != "" {
      obj.Insert(Notes, Str(x.notes));
    } else {
      obj.Omit(Notes);
    }
    if x.sortOrder != 0 {
      obj.Insert(SortOrder, Num(ToNumber(x.sortOrder)));
    } else {
      obj.Omit(SortOrder);
    }
    if x.lastConnected.Some? {
      obj.Insert(LastConnectedAtMs, Num(ToNumber(x.lastConnected.value)));
    } else {
      obj.Omit(LastConnectedAtMs);
    }
  }

  /** `insert_credentials`. */
  method InsertCredentials(ghost parse: Parser, obj: JsonMap<Field>, x: Input)
    requires obj.Valid() && Encodes(obj, parse, x)
    modifies obj
    ensures obj.Valid() && obj.done == old(obj.done) + CREDENTIALS
  {
    if x.includeCredentials {
      obj.Insert(Password, Str(x.password));
      obj.Insert(KeyData, Str(x.keyData));
      obj.Insert(Passphrase, Str(x.passphrase));
    } else {
      obj.Omit(Password);
      obj.Omit(KeyData);
      obj.Omit(Passphrase);
    }
  }

  const NAMES := {Id, LabelText, Folder}
  const ADDRESS := {Kind, Host, Port}
  const LOGIN := {User, AuthType, KeyId}
  const STAMPS := {KeyPath, CreatedAt, UpdatedAt}
  const VIA := {ViaSessionId, ViaOverride}
  const SCALARS := {Notes, SortOrder, LastConnectedAtMs}
  const CREDENTIALS := {Password, KeyData, Passphrase}

  // The first lines of the encoder: the mandatory keys, with `kind` and `key_id`.

  method InsertNames(ghost parse: Parser, obj: JsonMap<Field>, x: Input)
    requires obj.Valid() && Encodes(obj, parse, x)
    modifies obj
    ensures obj.Valid() && obj.done == old(obj.done) + NAMES
  {
    obj.Insert(Id, Str(x.id));
    obj.Insert(LabelText, Str(x.name));
    obj.Insert(Folder, Str(x.folder));
  }

  method InsertAddress(ghost parse: Parser, obj: JsonMap<Field>, x: Input)
    requires obj.Valid() && Encodes(obj, parse, x)
    modifies obj
    ensures obj.Valid() && obj.done == old(obj.done) + ADDRESS
  {
    if x.kind != "" && x.kind != "ssh" {
      obj.Insert(Kind, Str(x.kind));
    } else {
      obj.Omit(Kind);
    }
    obj.Insert(Host, Str(x.host));
    obj.Insert(Port, Num(PosInt(x.port)));
  }

  method InsertLogin(ghost parse: Parser, obj: JsonMap<Field>, x: Input)
    requires obj.Valid() && Encodes(obj, parse, x)
    modifies obj
    ensures obj.Valid() && obj.done == old(obj.done) + LOGIN
  {
    obj.Insert(User, Str(x.user));
    obj.Insert(AuthType, Str(x.authType));
    if x.keyId != "" {
      obj.Insert(KeyId, Str(x.keyId));
    } else {
      obj.Omit(KeyId);
    }
  }

  method InsertStamps(ghost parse: Parser, obj: JsonMap<Field>, x: Input)
    requires obj.Valid() && Encodes(obj, parse, x)
    modifies obj
    ensures obj.Valid() && obj.done == old(obj.done) + STAMPS
  {
    obj.Insert(KeyPath, Str(x.keyPath));
    obj.Insert(CreatedAt, Str(x.createdAt));
    obj.Insert(UpdatedAt, Str(x.updatedAt));
  }

  const ALL := {} + NAMES + ADDRESS + LOGIN + STAMPS + {Extras} + VIA + SCALARS + CREDENTIALS

  lemma Unwritten(parse: Parser, x: Input, f: Field)
    requires f !in ALL
    ensures Wire(parse, x, f) == None
  {
  }

  lemma AllDone(parse: Parser, x: Input, ms: seq<Member>, want: Field -> Option<Json>, done: set<Field>)
    requires Holds(ms, Name, want, done) && done == ALL
    requires forall f :: want(f) == Wire(parse, x, f)
    ensures IsPayload(parse, x, Obj(ms))
  {
    forall f ensures Get(ms, f) == Wire(parse, x, f) {
      FieldDone(parse, x, ms, want, done, f);
    }
  }

  lemma FieldDone(parse: Parser, x: Input, ms: seq<Member>, want: Field -> Option<Json>, done: set<Field>, f: Field)
    requires Holds(ms, Name, want, done) && done == ALL && want(f) == Wire(parse, x, f)
    ensures Get(ms, f) == Wire(parse, x, f)
  {
    HoldsAt(ms, Name, want, done, f);
    if f !in done {
      Unwritten(parse, x, f);
    }
  }

  /** `encode_canonical_json`. */
  method EncodeCanonicalJson(parse: Parser, x: Input) returns (r: Result<Json>)
    ensures r.Err? <==> Malformed(parse, x.extrasJson)
    ensures r.Ok? ==> IsPayload(parse, x, r.value)
  {
    NamesInjective();
    var obj := new JsonMap<Field>(Name, f => Wire(parse, x, f));
    InsertNames(parse, obj, x);
    InsertAddress(parse, obj, x);
    InsertLogin(parse, obj, x);
    InsertStamps(parse, obj, x);
    var extras := InsertExtras(parse, obj, x);
    if extras.Err? {
      return Err;
    }
    InsertVia(parse, obj, x);
    InsertOptionalScalars(parse, obj, x);
    InsertCredentials(parse, obj, x);
    AllDone(parse, x, obj.members, obj.want, obj.done);
    r := Ok(Obj(obj.members));
  }

  // -------------------------------------------------------------- the round trip

  /** What decoding an encoded session yields. */
  function NormalForm(parse: Parser, x: Input): Output {
    Output(
      x.id, x.name, x.folder, x.host, x.port, x.user,
      if x.kind == "" then "ssh" else x.kind,
      if x.authType == "" then "password" else x.authType,
      x.keyId, x.keyPath, x.createdAt, x.updatedAt,
      DecodeExtrasString(parse, x.extrasJson),
      if x.viaSessionId == Some("") then None else x.viaSessionId,
      x.viaOverride, x.notes, x.sortOrder, x.lastConnected,
      if x.includeCredentials then x.password else "",
      if x.includeCredentials then x.keyData else "",
      if x.includeCredentials then x.passphrase else "")
  }

  lemma OverrideGets(o: Override, ms: seq<Member>)
    requires Holds(ms, Name, f => OverrideField(o, f), set f | f in OVERRIDE_KEYS)
    ensures Get(ms, Host) == Some(Str(o.host)) && Get(ms, Port) == Some(Num(PosInt(o.port)))
    ensures Get(ms, User) == Some(Str(o.user))
  {
    var want, keys := f => OverrideField(o, f), set f | f in OVERRIDE_KEYS;
    assert OVERRIDE_KEYS[0] == Host && OVERRIDE_KEYS[1] == Port && OVERRIDE_KEYS[2] == User;
    HoldsAt(ms, Name, want, keys, Host);
    HoldsAt(ms, Name, want, keys, Port);
    HoldsAt(ms, Name, want, keys, User);
  }

  lemma OverrideFrom(o: Override, ms: seq<Member>)
    requires Get(ms, Host) == Some(Str(o.host)) && Get(ms, Port) == Some(Num(PosInt(o.port)))
    requires Get(ms, User) == Some(Str(o.user))
    ensures AsOverride(Some(Obj(ms))) == Some(o)
  {
  }

  lemma OverrideBack(o: Override)
    ensures AsOverride(Some(Obj(OverrideMembers(o)))) == Some(o)
  {
    NamesInjective();
    FillHolds(Name, f => OverrideField(o, f), OVERRIDE_KEYS);
    OverrideGets(o, OverrideMembers(o));
    OverrideFrom(o, OverrideMembers(o));
  }

  lemma NumbersBack(x: Input)
    ensures AsPort(Some(Num(PosInt(x.port)))) == x.port
    ensures AsSortOrder(Some(Num(ToNumber(x.sortOrder)))) == x.sortOrder
    ensures x.lastConnected.Some? ==> AsI64(Some(Num(ToNumber(x.lastConnected.value)))) == x.lastConnected
  {
  }

  /** `get` finds what the encoder wrote under `f`. */
  ghost predicate Finds(parse: Parser, x: Input, get: Field -> Option<Json>, f: Field) {
    get(f) == Wire(parse, x, f)
  }

  lemma NamesBack(parse: Parser, x: Input, get: Field -> Option<Json>)
    requires forall f :: Finds(parse, x, get, f)
    ensures AsString(get(Id)) == x.id && AsString(get(LabelText)) == x.name
    ensures AsFolder(get(Folder), get(Group)) == x.folder
    ensures AsString(get(Host)) == x.host && AsString(get(User)) == x.user
  {
    assert Finds(parse, x, get, Id) && Finds(parse, x, get, LabelText) && Finds(parse, x, get, Folder);
    assert Finds(parse, x, get, Host) && Finds(parse, x, get, User);
  }

  lemma TextsBack(parse: Parser, x: Input, get: Field -> Option<Json>)
    requires forall f :: Finds(parse, x, get, f)
    ensures AsString(get(KeyId)) == x.keyId && AsString(get(KeyPath)) == x.keyPath
    ensures AsString(get(CreatedAt)) == x.createdAt && AsString(get(UpdatedAt)) == x.updatedAt
    ensures AsString(get(Notes)) == x.notes
  {
    assert Finds(parse, x, get, KeyId) && Finds(parse, x, get, KeyPath) && Finds(parse, x, get, CreatedAt);
    assert Finds(parse, x, get, UpdatedAt) && Finds(parse, x, get, Notes);
  }

  lemma NumbersFound(parse: Parser, x: Input, get: Field -> Option<Json>)
    requires forall f :: Finds(parse, x, get, f)
    ensures AsPort(get(Port)) == x.port && AsSortOrder(get(SortOrder)) == x.sortOrder
    ensures AsI64(get(LastConnectedAtMs)) == x.lastConnected
  {
    NumbersBack(x);
    assert Finds(parse, x, get, Port) && Finds(parse, x, get, SortOrder) && Finds(parse, x, get, LastConnectedAtMs);
  }

  lemma DefaultsBack(parse: Parser, x: Input, get: Field -> Option<Json>)
    requires forall f :: Finds(parse, x, get, f)
    ensures AsStringOr(get(Kind), "ssh") == NormalForm(parse, x).kind
    ensures AsStringOr(get(AuthType), "password") == NormalForm(parse, x).authType
    ensures AsViaSessionId(get(ViaSessionId)) == NormalForm(parse, x).viaSessionId
  {
    assert Finds(parse, x, get, Kind) && Finds(parse, x, get, AuthType) && Finds(parse, x, get, ViaSessionId);
  }

  lemma CredentialsBack(parse: Parser, x: Input, get: Field -> Option<Json>)
    requires forall f :: Finds(parse, x, get, f)
    ensures AsString(get(Password)) == NormalForm(parse, x).password
    ensures AsString(get(KeyData)) == NormalForm(parse, x).keyData
    ensures AsString(get(Passphrase)) == NormalForm(parse, x).passphrase
  {
    assert Finds(parse, x, get, Password) && Finds(parse, x, get, KeyData) && Finds(parse, x, get, Passphrase);
  }

  lemma FieldsBack(parse: Parser, x: Input, get: Field -> Option<Json>)
    requires forall f :: Finds(parse, x, get, f)
    ensures DecodeFields(get, DecodeExtrasString(parse, x.extrasJson), x.viaOverride) == NormalForm(parse, x)
  {
    NamesBack(parse, x, get);
    TextsBack(parse, x, get);
    NumbersFound(parse, x, get);
    DefaultsBack(parse, x, get);
    CredentialsBack(parse, x, get);
  }

  lemma ExtrasBack(parse: Parser, s: string)
    ensures DecodeExtras(parse, ExtrasJson(parse, s)) == DecodeExtrasString(parse, s)
  {
  }

  /** Extras are written only when the text is an object with something in it. */
  lemma ExtrasSay(parse: Parser, s: string)
    ensures
      ExtrasJson(parse, s).Some? <==>
      s != "" && parse(s).Some? && parse(s).value.Obj? && parse(s).value.members != []
    ensures ExtrasJson(parse, s).Some? ==> ExtrasJson(parse, s) == parse(s)
  {
  }

  /** The envelope's folders are the texts of the list, in order; other items are skipped. */
  lemma StringsSay(items: seq<Json>, item: Json)
    ensures Strings([]) == []
    ensures item.Str? ==> Strings(items + [item]) == Strings(items) + [item.text]
    ensures !item.Str? ==> Strings(items + [item]) == Strings(items)
  {
    assert (items + [item])[..|items|] == items;
  }

  lemma ViaOverrideBack(parse: Parser, x: Input)
    ensures AsOverride(Wire(parse, x, ViaOverride)) == x.viaOverride
  {
    if x.viaOverride.Some? {
      OverrideBack(x.viaOverride.value);
    }
  }

  lemma GetterFinds(parse: Parser, x: Input, j: Json)
    requires IsPayload(parse, x, j)
    ensures forall f :: Finds(parse, x, Getter(j.members), f)
  {
    forall f ensures Finds(parse, x, Getter(j.members), f) {
      assert Get(j.members, f) == Wire(parse, x, f);
    }
  }

  lemma PayloadExtras(parse: Parser, x: Input, j: Json)
    requires IsPayload(parse, x, j)
    ensures DecodeExtras(parse, Get(j.members, Extras)) == DecodeExtrasString(parse, x.extrasJson)
  {
    ExtrasBack(parse, x.extrasJson);
  }

  lemma PayloadOverride(parse: Parser, x: Input, j: Json)
    requires IsPayload(parse, x, j)
    ensures AsOverride(Get(j.members, ViaOverride)) == x.viaOverride
  {
    assert Get(j.members, ViaOverride) == Wire(parse, x, ViaOverride);
    ViaOverrideBack(parse, x);
  }

  /** Decoding a payload yields the normal form. */
  lemma DecodePayload(parse: Parser, x: Input, j: Json)
    requires IsPayload(parse, x, j)
    ensures DecodeCanonicalJson(parse, j) == Ok(NormalForm(parse, x))
  {
    GetterFinds(parse, x, j);
    FieldsBack(parse, x, Getter(j.members));
    PayloadExtras(parse, x, j);
    PayloadOverride(parse, x, j);
    assert DecodeObject(parse, j.members) == NormalForm(parse, x);
  }

  /** The session as it went in. */
  predicate Agrees(parse: Parser, x: Input, out: Output) {
    && out.id == x.id && out.name == x.name && out.folder == x.folder && out.host == x.host && out.port == x.port
    && out.user == x.user && out.kind == x.kind && out.authType == x.authType && out.keyId == x.keyId
    && out.keyPath == x.keyPath && out.createdAt == x.createdAt && out.updatedAt == x.updatedAt
    && out.extras == DecodeExtrasString(parse, x.extrasJson) && out.viaSessionId == x.viaSessionId
    && out.viaOverride == x.viaOverride && out.notes == x.notes && out.sortOrder == x.sortOrder
    && out.lastConnected == x.lastConnected && out.password == x.password && out.keyData == x.keyData
    && out.passphrase == x.passphrase
  }

  /** Every field survives the round trip exactly when kind and auth type are given, the
      via id is not the empty string, and no credential is left behind. */
  lemma LosslessIff(parse: Parser, x: Input, payload: Json)
    requires IsPayload(parse, x, payload)
    ensures
      var back := DecodeCanonicalJson(parse, payload);
      && back.Ok?
      && (Agrees(parse, x, back.value) <==>
          x.kind != "" && x.authType != "" && x.viaSessionId != Some("") &&
          (x.includeCredentials || (x.password == "" && x.keyData == "" && x.passphrase == "")))
  {
    DecodePayload(parse, x, payload);
  }

  const PLAIN := Input(
    "i", "", "", "h", 22, "u", "", "key", "", "", "", "", "", None, None, "", 0, None, false, "p", "", "")

  /** A session without a kind comes back as an ssh one, and its password not at all. */
  lemma KindAndPasswordAreLost(parse: Parser, payload: Json)
    requires IsPayload(parse, PLAIN, payload)
    ensures
      var back := DecodeCanonicalJson(parse, payload);
      back.Ok? && back.value.kind == "ssh" && back.value.password == ""
  {
    DecodePayload(parse, PLAIN, payload);
  }

  // ------------------------------------------------------- arrays and envelopes

  predicate AnyMalformed(parse: Parser, items: seq<Input>) {
    exists i :: 0 <= i < |items| && Malformed(parse, items[i].extrasJson)
  }

  function NormalForms(parse: Parser, items: seq<Input>): seq<Output> {
    seq(|items|, i requires 0 <= i < |items| => NormalForm(parse, items[i]))
  }

  ghost predicate ArePayloads(parse: Parser, items: seq<Input>, arr: seq<Json>) {
    |arr| == |items| && forall i :: 0 <= i < |items| ==> IsPayload(parse, items[i], arr[i])
  }

  lemma {:induction false} CollectOk<A, B>(f: A -> Result<B>, items: seq<A>, out: seq<B>)
    requires |out| == |items| && forall i :: 0 <= i < |items| ==> f(items[i]) == Ok(out[i])
    ensures CollectResults(f, items) == Ok(out)
  {
    if items != [] {
      var n := |items| - 1;
      CollectOk(f, items[..n], out[..n]);
      assert out == out[..n] + [out[n]];
    }
  }

  /** Decoding an array of payloads yields the normal forms, in order. */
  lemma DecodePayloads(parse: Parser, items: seq<Input>, arr: seq<Json>)
    requires ArePayloads(parse, items, arr)
    ensures DecodeSessionArray(parse, Arr(arr)) == Ok(NormalForms(parse, items))
  {
    var f := v => DecodeCanonicalJson(parse, v);
    var out := NormalForms(parse, items);
    forall i | 0 <= i < |items| ensures f(arr[i]) == Ok(out[i]) {
      DecodePayload(parse, items[i], arr[i]);
    }
    CollectOk(f, arr, out);
  }

  lemma PayloadsNext(parse: Parser, items: seq<Input>, i: nat, arr: seq<Json>, v: Json)
    requires i < |items| && ArePayloads(parse, items[..i], arr) && IsPayload(parse, items[i], v)
    ensures ArePayloads(parse, items[..i + 1], arr + [v])
  {
  }

  /** `encode_session_array`. */
  method EncodeSessionArray(parse: Parser, items: seq<Input>) returns (r: Result<Json>)
    ensures r.Err? <==> AnyMalformed(parse, items)
    ensures r.Ok? ==> r.value.Arr? && ArePayloads(parse, items, r.value.items)
    ensures r.Ok? ==> DecodeSessionArray(parse, r.value) == Ok(NormalForms(parse, items))
  {
    var arr: seq<Json> := [];
    for i := 0 to |items|
      invariant forall k :: 0 <= k < i ==> !Malformed(parse, items[k].extrasJson)
      invariant ArePayloads(parse, items[..i], arr)
    {
      var v := EncodeCanonicalJson(parse, items[i]);
      if v.Err? {
        return Err;
      }
      PayloadsNext(parse, items, i, arr, v.value);
      arr := arr + [v.value];
    }
    assert items[..|items|] == items;
    DecodePayloads(parse, items, arr);
    r := Ok(Arr(arr));
  }

  lemma {:induction false} StringsBack(folders: seq<string>)
    ensures Strings(FolderArray(folders)) == folders
  {
    if folders != [] {
      var n := |folders| - 1;
      StringsBack(folders[..n]);
      assert FolderArray(folders)[..n] == FolderArray(folders[..n]);
    }
  }

  function FolderArray(folders: seq<string>): seq<Json> {
    seq(|folders|, i requires 0 <= i < |folders| => Str(folders[i]))
  }

  function EnvelopeField(sessions: Json, folders: seq<string>, description: string, f: Field): Option<Json> {
    match f
    case Sessions => Some(sessions)
    case EmptyFolders => Some(Arr(FolderArray(folders)))
    case Description => Some(Str(description))
    case _ => None
  }

  /** `encode_extras_string`. */
  function EncodeExtrasString(printed: Json -> string, extras: seq<Pair>): string {
    if extras == [] then "" else printed(ToValue(TObject(extras)))
  }

  /** Writing the extras column and reading it gives the extras back exactly when they are
      settled. */
  lemma ExtrasColumnIff(parse: Parser, printed: Json -> string, extras: seq<Pair>)
    requires var j := ToValue(TObject(extras)); printed(j) != "" && parse(printed(j)) == Some(j)
    ensures DecodeExtrasString(parse, EncodeExtrasString(printed, extras)) == extras <==> Settled(TObject(extras))
  {
    TypedRoundTripIff(TObject(extras));
    var j := ToValue(TObject(extras));
    assert Obj(j.members) == j;
  }

  /** An extras column with a whole double comes back with an integer. */
  lemma WholeDoubleInColumn(parse: Parser, printed: Json -> string)
    requires
      var j := ToValue(TObject([Pair("a", TDouble(Finite(1.0)))]));
      printed(j) != "" && parse(printed(j)) == Some(j)
    ensures DecodeExtrasString(parse, EncodeExtrasString(printed, [Pair("a", TDouble(Finite(1.0)))])) !=
            [Pair("a", TDouble(Finite(1.0)))]
  {
    ExtrasColumnIff(parse, printed, [Pair("a", TDouble(Finite(1.0)))]);
    assert Whole(1.0);
    assert !Settled([Pair("a", TDouble(Finite(1.0)))][0].value);
  }

  /** The part of `decode_snapshot_envelope` that follows the three lookups. */
  lemma EnvelopeRead(
      parse: Parser, sessions: Json, folders: seq<string>, description: string, ms: seq<Member>, out: seq<Output>)
    requires Holds(ms, Name, f => EnvelopeField(sessions, folders, description, f),
                   {Sessions, EmptyFolders, Description})
    requires DecodeSessionArray(parse, sessions) == Ok(out)
    ensures DecodeSnapshotEnvelope(parse, Obj(ms)) == Ok(Envelope(out, folders, description))
  {
    var want := f => EnvelopeField(sessions, folders, description, f);
    var done := {Sessions, EmptyFolders, Description};
    StringsBack(folders);
    HoldsAt(ms, Name, want, done, Sessions);
    HoldsAt(ms, Name, want, done, EmptyFolders);
    HoldsAt(ms, Name, want, done, Description);
  }

  /** `encode_snapshot_envelope`. */
  method EncodeSnapshotEnvelope(parse: Parser, e: Envelope<Input>) returns (r: Result<Json>)
    ensures r.Err? <==> AnyMalformed(parse, e.sessions)
    ensures r.Ok? ==> DecodeSnapshotEnvelope(parse, r.value) ==
                      Ok(Envelope(NormalForms(parse, e.sessions), e.emptyFolders, e.description))
  {
    var arr := EncodeSessionArray(parse, e.sessions);
    if arr.Err? {
      return Err;
    }
    var obj := WriteEnvelope(arr.value, e.emptyFolders, e.description);
    EnvelopeRead(parse, arr.value, e.emptyFolders, e.description, obj, NormalForms(parse, e.sessions));
    r := Ok(Obj(obj));
  }

  method WriteEnvelope(sessions: Json, folders: seq<string>, description: string) returns (ms: seq<Member>)
    ensures Holds(ms, Name, f => EnvelopeField(sessions, folders, description, f),
                  {Sessions, EmptyFolders, Description})
  {
    NamesInjective();
    var obj := new JsonMap<Field>(Name, f => EnvelopeField(sessions, folders, description, f));
    obj.Insert(Sessions, sessions);
    obj.Insert(EmptyFolders, Arr(FolderArray(folders)));
    obj.Insert(Description, Str(description));
    assert {} + {Sessions} + {EmptyFolders} + {Description} == {Sessions, EmptyFolders, Description};
    ms := obj.members;
  }

  // ------------------------------------------------------- the payload, by its keys

  lemma PayloadNames(parse: Parser, x: Input, j: Json)
    requires IsPayload(parse, x, j)
    ensures Find(j.members, "id") == Some(Str(x.id)) && Find(j.members, "label") == Some(Str(x.name))
    ensures Find(j.members, "folder") == Some(Str(x.folder)) && Find(j.members, "host") == Some(Str(x.host))
    ensures Find(j.members, "port") == Some(Num(PosInt(x.port))) && Find(j.members, "user") == Some(Str(x.user))
  {
    assert Get(j.members, Id) == Wire(parse, x, Id) && Get(j.members, LabelText) == Wire(parse, x, LabelText);
    assert Get(j.members, Folder) == Wire(parse, x, Folder) && Get(j.members, Host) == Wire(parse, x, Host);
    assert Get(j.members, Port) == Wire(parse, x, Port) && Get(j.members, User) == Wire(parse, x, User);
  }

  lemma PayloadLogin(parse: Parser, x: Input, j: Json)
    requires IsPayload(parse, x, j)
    ensures Find(j.members, "auth_type") == Some(Str(x.authType)) && Find(j.members, "key_path") == Some(Str(x.keyPath))
    ensures Find(j.members, "key_id") == if x.keyId == "" then None else Some(Str(x.keyId))
  {
    assert Get(j.members, AuthType) == Wire(parse, x, AuthType) && Get(j.members, KeyPath) == Wire(parse, x, KeyPath);
    assert Get(j.members, KeyId) == Wire(parse, x, KeyId);
  }

  lemma PayloadStamps(parse: Parser, x: Input, j: Json)
    requires IsPayload(parse, x, j)
    ensures Find(j.members, "created_at") == Some(Str(x.createdAt))
    ensures Find(j.members, "updated_at") == Some(Str(x.updatedAt))
    ensures Find(j.members, "kind") == if x.kind == "" || x.kind == "ssh" then None else Some(Str(x.kind))
  {
    assert Get(j.members, CreatedAt) == Wire(parse, x, CreatedAt);
    assert Get(j.members, UpdatedAt) == Wire(parse, x, UpdatedAt);
    assert Get(j.members, Kind) == Wire(parse, x, Kind);
  }

  lemma PayloadNotes(parse: Parser, x: Input, j: Json)
    requires IsPayload(parse, x, j)
    ensures Find(j.members, "notes") == if x.notes == "" then None else Some(Str(x.notes))
    ensures Find(j.members, "sort_order") == if x.sortOrder == 0 then None else Some(Num(ToNumber(x.sortOrder)))
  {
    assert Get(j.members, Notes) == Wire(parse, x, Notes) && Get(j.members, SortOrder) == Wire(parse, x, SortOrder);
  }

  lemma PayloadOptions(parse: Parser, x: Input, j: Json)
    requires IsPayload(parse, x, j)
    ensures Find(j.members, "last_connected_at_ms") ==
            if x.lastConnected == None then None else Some(Num(ToNumber(x.lastConnected.value)))
    ensures Find(j.members, "via_session_id") ==
            if x.viaSessionId == None || x.viaSessionId == Some("") then None else Some(Str(x.viaSessionId.value))
  {
    assert Get(j.members, LastConnectedAtMs) == Wire(parse, x, LastConnectedAtMs);
    assert Get(j.members, ViaSessionId) == Wire(parse, x, ViaSessionId);
  }

  lemma PayloadSecrets(parse: Parser, x: Input, j: Json)
    requires IsPayload(parse, x, j)
    ensures Find(j.members, "password") == if x.includeCredentials then Some(Str(x.password)) else None
    ensures Find(j.members, "key_data") == if x.includeCredentials then Some(Str(x.keyData)) else None
    ensures Find(j.members, "passphrase") == if x.includeCredentials then Some(Str(x.passphrase)) else None
  {
    assert Get(j.members, Password) == Wire(parse, x, Password) && Get(j.members, KeyData) == Wire(parse, x, KeyData);
    assert Get(j.members, Passphrase) == Wire(parse, x, Passphrase);
  }

  lemma PayloadParts(parse: Parser, x: Input, j: Json)
    requires IsPayload(parse, x, j)
    ensures Find(j.members, "extras") == ExtrasJson(parse, x.extrasJson)
    ensures Find(j.members, "via_override") ==
            if x.viaOverride == None then None else Some(Obj(OverrideMembers(x.viaOverride.value)))
  {
    assert Get(j.members, Extras) == Wire(parse, x, Extras);
    assert Get(j.members, ViaOverride) == Wire(parse, x, ViaOverride);
  }

  lemma OverrideKeys(o: Override)
    ensures Find(OverrideMembers(o), "host") == Some(Str(o.host))
    ensures Find(OverrideMembers(o), "user") == Some(Str(o.user))
    ensures Find(OverrideMembers(o), "port") == Some(Num(PosInt(o.port)))
  {
    NamesInjective();
    FillHolds(Name, f => OverrideField(o, f), OVERRIDE_KEYS);
    OverrideGets(o, OverrideMembers(o));
  }

  // What the decoder reads from any object: each field from its key.

  lemma DecodedTexts(get: Field -> Option<Json>, extras: seq<Pair>, over: Option<Override>)
    ensures
      var out := DecodeFields(get, extras, over);
      && out.id == AsString(get(Id)) && out.name == AsString(get(LabelText)) && out.host == AsString(get(Host))
      && out.user == AsString(get(User)) && out.keyId == AsString(get(KeyId)) && out.keyPath == AsString(get(KeyPath))
      && out.createdAt == AsString(get(CreatedAt)) && out.updatedAt == AsString(get(UpdatedAt))
      && out.notes == AsString(get(Notes)) && out.password == AsString(get(Password))
      && out.keyData == AsString(get(KeyData)) && out.passphrase == AsString(get(Passphrase))
  {
  }

  lemma DecodedDefaults(get: Field -> Option<Json>, extras: seq<Pair>, over: Option<Override>)
    ensures
      var out := DecodeFields(get, extras, over);
      && out.kind == AsStringOr(get(Kind), "ssh") && out.authType == AsStringOr(get(AuthType), "password")
      && out.folder == AsFolder(get(Folder), get(Group)) && out.port == AsPort(get(Port))
      && out.viaSessionId == AsViaSessionId(get(ViaSessionId)) && out.sortOrder == AsSortOrder(get(SortOrder))
      && out.lastConnected == AsI64(get(LastConnectedAtMs)) && out.extras == extras && out.viaOverride == over
  {
  }

  /** The keys, as they stand in a payload. */
  lemma NameTable()
    ensures Name(Id) == "id" && Name(LabelText) == "label" && Name(Folder) == "folder" && Name(Group) == "group"
    ensures Name(Kind) == "kind" && Name(Host) == "host" && Name(Port) == "port" && Name(User) == "user"
    ensures Name(AuthType) == "auth_type" && Name(KeyId) == "key_id" && Name(KeyPath) == "key_path"
    ensures Name(CreatedAt) == "created_at" && Name(UpdatedAt) == "updated_at" && Name(Extras) == "extras"
    ensures Name(ViaSessionId) == "via_session_id" && Name(ViaOverride) == "via_override" && Name(Notes) == "notes"
    ensures Name(SortOrder) == "sort_order" && Name(LastConnectedAtMs) == "last_connected_at_ms"
    ensures Name(Password) == "password" && Name(KeyData) == "key_data" && Name(Passphrase) == "passphrase"
    ensures Name(Sessions) == "sessions" && Name(EmptyFolders) == "emptyFolders" && Name(Description) == "description"
  {
  }

  /** The decoder looks a field up under its name. */
  lemma GetterLooksUp(ms: seq<Member>, f: Field)
    ensures Getter(ms)(f) == Find(ms, Name(f))
  {
  }

  lemma DecoderOverride(via: seq<Member>)
    ensures AsOverride(Some(Obj(via))) ==
            Some(Override(AsString(Find(via, "host")), AsOverridePort(Find(via, "port")), AsString(Find(via, "user"))))
  {
  }

  /** The defaults: port 22, `ssh`, `password`, the `group` of older payloads, 0; a present
      value is kept. */
  lemma DefaultsSay(s: string, u: U64, n: I32, m: I64, other: Option<Json>)
    ensures AsPort(None) == 22 == AsOverridePort(None) && AsPort(Some(Str(s))) == 22
    ensures u < U32_LIMIT ==> AsPort(Some(Num(PosInt(u)))) == u == AsOverridePort(Some(Num(PosInt(u))))
    ensures AsStringOr(None, s) == s && (s != "" ==> AsStringOr(Some(Str(s)), "ssh") == s)
    ensures AsStringOr(Some(Str("")), s) == s && AsString(Some(Str(s))) == s && AsString(None) == ""
    ensures AsFolder(Some(Str(s)), other) == s && AsFolder(None, other) == AsString(other)
    ensures AsSortOrder(None) == 0 && AsSortOrder(Some(Num(ToNumber(n)))) == n
    ensures AsI64(None) == None && AsI64(Some(Num(ToNumber(m)))) == Some(m)
    ensures AsViaSessionId(None) == None && AsViaSessionId(Some(Str(s))) == Some(s)
  {
  }

  /** The envelope, by its parts. */
  lemma EnvelopeSays(parse: Parser, ms: seq<Member>)
    ensures
      DecodeSnapshotEnvelope(parse, Obj(ms)) ==
      Assemble(
        SessionsIn(parse, Get(ms, Sessions)), FoldersIn(Get(ms, EmptyFolders)), AsString(Get(ms, Description)))
  {
  }

  /** Ports from numbers that are no ports: cut to 32 bits, below zero to 0, a double toward
      zero and at most the largest. */
  lemma OddPortsSay(u: U64, i: NegI64, f: real)
    ensures AsPort(Some(Num(PosInt(u)))) == u % 0x1_0000_0000 && AsPort(Some(Num(NegInt(i)))) == 0
    ensures f < 0.0 ==> AsPort(Some(Num(Float(f)))) == 0
    ensures f >= 4294967296.0 ==> AsPort(Some(Num(Float(f)))) == 4294967295
    ensures AsOverridePort(Some(Num(NegInt(i)))) == 22 == AsOverridePort(Some(Num(Float(f))))
  {
  }

  lemma DoublePortSays(f: real, n: U32)
    requires f.Floor == n
    ensures AsPort(Some(Num(Float(f)))) == n
  {
  }

  /** A sort order is cut to 32 bits. */
  lemma WrapSays(n: int)
    ensures exists k: int :: WrapI32(n) == n + k * 0x1_0000_0000
  {
    var k := -((n + I32_LIMIT) / U32_LIMIT);
    assert WrapI32(n) == n + k * 0x1_0000_0000;
  }
}
