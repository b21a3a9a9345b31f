/**
 JSON values and the typed `extras` tree of session_json.rs: `SessionJsonValue::from_value`
 and its counterpart `session_json_value_to_value`.

 A JSON object is the key-ordered list of its members (`serde_json::Map` is a `BTreeMap`
 here).  A finite double is a real; the two zeros are one.
*/
module JsonTree {
  import opened Wrappers
  import opened Lex

  const I64_LIMIT := 0x8000_0000_0000_0000
  const U64_LIMIT := 0x1_0000_0000_0000_0000

  type U64 = n: int | 0 <= n < U64_LIMIT
  type I64 = n: int | -I64_LIMIT <= n < I64_LIMIT
  type NegI64 = n: int | -I64_LIMIT <= n < 0 witness -1

  /** `serde_json::Number`. */
  datatype Number = PosInt(pos: U64) | NegInt(neg: NegI64) | Float(float: real)

  datatype Json =
    | Null
    | Bool(flag: bool)
    | Num(num: Number)
    | Str(text: string)
    | Arr(items: seq<Json>)
    | Obj(members: seq<Member>)

  datatype Member = Member(key: string, value: Json)

  /** An `f64` that need not be finite. */
  datatype Double = Finite(value: real) | NotFinite

  /** `SessionJsonValue`. */
  datatype Typed =
    | TNull
    | TBool(flag: bool)
    | TInt(whole: I64)
    | TDouble(double: Double)
    | TText(text: string)
    | TArray(elems: seq<Typed>)
    | TObject(pairs: seq<Pair>)

  datatype Pair = Pair(key: string, value: Typed)

  // ---------------------------------------------------------------------- objects

  /** `Map::insert`. */
  function Put(ms: seq<Member>, key: string, value: Json): seq<Member> {
    if ms == [] then [Member(key, value)]
    else if ms[0].key == key then [Member(key, value)] + ms[1..]
    else if StringLt(key, ms[0].key) then [Member(key, value)] + ms
    else [ms[0]] + Put(ms[1..], key, value)
  }

  /** `Map::get`. */
  function Find(ms: seq<Member>, key: string): Option<Json> {
    if ms == [] then None else if ms[0].key == key then Some(ms[0].value) else Find(ms[1..], key)
  }

  /** Collecting key/value pairs into a map: a later duplicate wins. */
  function Collect(ms: seq<Member>): seq<Member> {
    if ms == [] then []
    else Put(Collect(ms[..|ms| - 1]), ms[|ms| - 1].key, ms[|ms| - 1].value)
  }

  lemma {:induction false} FindPut(ms: seq<Member>, key: string, value: Json, other: string)
    ensures Find(Put(ms, key, value), other) == if other == key then Some(value) else Find(ms, other)
  {
    if ms == [] {
    } else if ms[0].key == key {
      assert ([Member(key, value)] + ms[1..])[1..] == ms[1..];
    } else if StringLt(key, ms[0].key) {
      assert ([Member(key, value)] + ms)[1..] == ms;
    } else {
      FindPut(ms[1..], key, value, other);
      assert ([ms[0]] + Put(ms[1..], key, value))[1..] == Put(ms[1..], key, value);
    }
  }

  ghost predicate Ordered(ms: seq<Member>) {
    forall i, j :: 0 <= i < j < |ms| ==> StringLt(ms[i].key, ms[j].key)
  }

  /** A member of the result is the inserted one or was there before. */
  lemma {:induction false} PutMembers(ms: seq<Member>, key: string, value: Json)
    ensures forall i :: 0 <= i < |Put(ms, key, value)| ==>
              Put(ms, key, value)[i] == Member(key, value) || Put(ms, key, value)[i] in ms
  {
    if ms != [] && ms[0].key != key && !StringLt(key, ms[0].key) {
      PutMembers(ms[1..], key, value);
      assert forall m :: m in ms[1..] ==> m in ms;
    }
  }

  lemma StringLtTrans(a: string, b: string, c: string)
    requires StringLt(a, b) && StringLe(b, c)
    ensures StringLt(a, c)
  {
    StringLeTrans(a, b, c);
    StringLeTotal(a, b);
  }

  lemma {:induction false} PutOrdered(ms: seq<Member>, key: string, value: Json)
    requires Ordered(ms)
    ensures Ordered(Put(ms, key, value))
  {
    if ms == [] {
    } else if ms[0].key == key {
    } else if StringLt(key, ms[0].key) {
      forall j | 0 <= j < |ms| ensures StringLt(key, ms[j].key) {
        StringLeTotal(ms[0].key, ms[0].key);
        StringLtTrans(key, ms[0].key, ms[j].key);
      }
    } else {
      var rest := Put(ms[1..], key, value);
      PutOrdered(ms[1..], key, value);
      PutMembers(ms[1..], key, value);
      StringLeTotal(ms[0].key, key);
      forall j | 0 <= j < |rest| ensures StringLt(ms[0].key, rest[j].key) {
        if rest[j] != Member(key, value) {
          var k :| 0 <= k < |ms[1..]| && ms[1..][k] == rest[j];
          assert ms[k + 1] == rest[j];
        }
      }
    }
  }

  lemma {:induction false} CollectOrdered(ms: seq<Member>)
    ensures Ordered(Collect(ms))
    ensures forall m :: m in Collect(ms) ==> m in ms
  {
    if ms != [] {
      var front, last := ms[..|ms| - 1], ms[|ms| - 1];
      CollectOrdered(front);
      PutOrdered(Collect(front), last.key, last.value);
      PutMembers(Collect(front), last.key, last.value);
    }
  }

  lemma {:induction false} PutLast(ms: seq<Member>, key: string, value: Json)
    requires forall i :: 0 <= i < |ms| ==> StringLt(ms[i].key, key)
    ensures Put(ms, key, value) == ms + [Member(key, value)]
  {
    if ms != [] {
      StringLeTotal(ms[0].key, key);
      PutLast(ms[1..], key, value);
      assert ms == [ms[0]] + ms[1..];
    }
  }

  lemma {:induction false} CollectIdentity(ms: seq<Member>)
    requires Ordered(ms)
    ensures Collect(ms) == ms
  {
    if ms != [] {
      var front, last := ms[..|ms| - 1], ms[|ms| - 1];
      CollectIdentity(front);
      PutLast(front, last.key, last.value);
      assert ms == front + [last];
    }
  }

  /** `and_then(Value::as_str)` with an empty default. */
  function AsString(j: Option<Json>): string {
    match j
    case Some(Str(s)) => s
    case _ => ""
  }

  /** `and_then(Value::as_i64)`. */
  function AsI64(j: Option<Json>): Option<I64> {
    match j
    case Some(Num(PosInt(u))) => if u < I64_LIMIT then Some(u) else None
    case Some(Num(NegInt(i))) => Some(i)
    case _ => None
  }

  // ------------------------------------------------------------------- conversions

  /** `u as f64` for a `u` of at least 2^63: to the nearest multiple of 2048, ties to the
      even multiple. */
  function RoundHuge(u: U64): (r: int)
    requires u >= I64_LIMIT
    ensures -1024 <= r - u <= 1024
    ensures r == I64_LIMIT <==> u <= I64_LIMIT + 1024
  {
    var below := u / 2048;
    var over := u % 2048;
    if over < 1024 || (over == 1024 && below % 2 == 0) then below * 2048 else (below + 1) * 2048
  }

  predicate Whole(f: real) {
    f.Floor as real == f
  }

  /** The number arm of `from_value`; `i64::MAX as f64` is 2^63 and the cast saturates. */
  function FromNumber(n: Number): Typed {
    match n
    case PosInt(u) => if u < I64_LIMIT then TInt(u) else TDouble(Finite(RoundHuge(u) as real))
    case NegInt(i) => TInt(i)
    case Float(f) =>
      if Whole(f) && -I64_LIMIT as real <= f <= I64_LIMIT as real then
        TInt(if f.Floor < I64_LIMIT then f.Floor else I64_LIMIT - 1)
      else TDouble(Finite(f))
  }

  /** `SessionJsonValue::from_value`. */
  function FromValue(j: Json): Typed {
    match j
    case Null => TNull
    case Bool(b) => TBool(b)
    case Num(n) => FromNumber(n)
    case Str(s) => TText(s)
    case Arr(items) => TArray(seq(|items|, i requires 0 <= i < |items| => FromValue(items[i])))
    case Obj(ms) => TObject(seq(|ms|, i requires 0 <= i < |ms| => Pair(ms[i].key, FromValue(ms[i].value))))
  }

  function ToNumber(i: I64): Number {
    if i >= 0 then PosInt(i) else NegInt(i)
  }

  /** `session_json_value_to_value`. */
  function ToValue(t: Typed): Json {
    match t
    case TNull => Null
    case TBool(b) => Bool(b)
    case TInt(i) => Num(ToNumber(i))
    case TDouble(Finite(f)) => Num(Float(f))
    case TDouble(NotFinite) => Null
    case TText(s) => Str(s)
    case TArray(elems) => Arr(seq(|elems|, i requires 0 <= i < |elems| => ToValue(elems[i])))
    case TObject(pairs) =>
      Obj(Collect(seq(|pairs|, i requires 0 <= i < |pairs| => Member(pairs[i].key, ToValue(pairs[i].value)))))
  }

  // -------------------------------------------------------------------- stability

  /** Every object is a map. */
  ghost predicate WellFormed(j: Json) {
    match j
    case Arr(items) => forall i :: 0 <= i < |items| ==> WellFormed(items[i])
    case Obj(ms) => Ordered(ms) && forall i :: 0 <= i < |ms| ==> WellFormed(ms[i].value)
    case _ => true
  }

  /** An unsigned number that becomes the double 2^63. */
  ghost predicate Lands(j: Json) {
    match j
    case Num(PosInt(u)) => I64_LIMIT <= u <= I64_LIMIT + 1024
    case Arr(items) => exists i :: 0 <= i < |items| && Lands(items[i])
    case Obj(ms) => exists i :: 0 <= i < |ms| && Lands(ms[i].value)
    case _ => false
  }

  ghost predicate OrderedPairs(ps: seq<Pair>) {
    forall i, j :: 0 <= i < j < |ps| ==> StringLt(ps[i].key, ps[j].key)
  }

  /** Trees without a double that has an integer's place, without a NaN or an infinity,
      and with their objects in key order. */
  ghost predicate Settled(t: Typed) {
    match t
    case TDouble(Finite(f)) => !(Whole(f) && -I64_LIMIT as real <= f <= I64_LIMIT as real)
    case TDouble(NotFinite) => false
    case TArray(elems) => forall i :: 0 <= i < |elems| ==> Settled(elems[i])
    case TObject(ps) => OrderedPairs(ps) && forall i :: 0 <= i < |ps| ==> Settled(ps[i].value)
    case _ => true
  }

  lemma {:induction false} SettledFromIff(j: Json)
    requires WellFormed(j)
    ensures Settled(FromValue(j)) <==> !Lands(j)
  {
    match j {
      case Arr(items) =>
        forall i | 0 <= i < |items| ensures Settled(FromValue(items[i])) <==> !Lands(items[i]) {
          SettledFromIff(items[i]);
        }
        var elems := FromValue(j).elems;
        assert forall i :: 0 <= i < |items| ==> elems[i] == FromValue(items[i]);
      case Obj(ms) =>
        forall i | 0 <= i < |ms| ensures Settled(FromValue(ms[i].value)) <==> !Lands(ms[i].value) {
          SettledFromIff(ms[i].value);
        }
        var ps := FromValue(j).pairs;
        assert forall i :: 0 <= i < |ms| ==> ps[i] == Pair(ms[i].key, FromValue(ms[i].value));
      case Num(n) => NumberSettled(n);
      case _ =>
    }
  }

  lemma NumberSettled(n: Number)
    ensures Settled(FromNumber(n)) <==> !Lands(Num(n))
  {
    if n.PosInt? && n.pos >= I64_LIMIT {
      var r := RoundHuge(n.pos);
      assert (r as real).Floor == r;
    }
  }

  lemma {:induction false} ToValueOk(t: Typed)
    ensures WellFormed(ToValue(t)) && !Lands(ToValue(t))
  {
    match t {
      case TArray(elems) =>
        forall i | 0 <= i < |elems| ensures WellFormed(ToValue(elems[i])) && !Lands(ToValue(elems[i])) {
          ToValueOk(elems[i]);
        }
      case TObject(ps) =>
        var ms := seq(|ps|, i requires 0 <= i < |ps| => Member(ps[i].key, ToValue(ps[i].value)));
        forall i | 0 <= i < |ms| ensures WellFormed(ms[i].value) && !Lands(ms[i].value) {
          ToValueOk(ps[i].value);
        }
        CollectOrdered(ms);
        var out := Collect(ms);
        forall i | 0 <= i < |out| ensures WellFormed(out[i].value) && !Lands(out[i].value) {
          assert out[i] in ms;
        }
      case _ =>
    }
  }

  /** The conversions are inverse exactly on the settled trees. */
  lemma {:induction false} TypedRoundTripIff(t: Typed)
    ensures FromValue(ToValue(t)) == t <==> Settled(t)
  {
    match t {
      case TArray(elems) =>
        var back := FromValue(ToValue(t)).elems;
        forall i | 0 <= i < |elems| ensures back[i] == elems[i] <==> Settled(elems[i]) {
          TypedRoundTripIff(elems[i]);
        }
        if Settled(t) {
          assert back == elems;
        }
      case TObject(ps) => ObjectRoundTrip(ps);
      case TInt(i) =>
      case _ =>
    }
  }

  lemma {:induction false} ObjectRoundTrip(ps: seq<Pair>)
    ensures FromValue(ToValue(TObject(ps))) == TObject(ps) <==> Settled(TObject(ps))
    decreases TObject(ps), 0
  {
    var ms := seq(|ps|, i requires 0 <= i < |ps| => Member(ps[i].key, ToValue(ps[i].value)));
    var back := FromValue(ToValue(TObject(ps))).pairs;
    assert ToValue(TObject(ps)).members == Collect(ms);
    CollectOrdered(ms);
    if OrderedPairs(ps) {
      CollectIdentity(ms);
      forall i | 0 <= i < |ps| ensures back[i] == ps[i] <==> Settled(ps[i].value) {
        TypedRoundTripIff(ps[i].value);
      }
      if Settled(TObject(ps)) {
        assert back == ps;
      }
    } else {
      assert OrderedPairs(back);
    }
  }

  /** Converting a JSON value to a typed tree and back and to a typed tree again changes
      nothing, exactly unless an unsigned number lands on 2^63. */
  lemma StableIff(j: Json)
    requires WellFormed(j)
    ensures FromValue(ToValue(FromValue(j))) == FromValue(j) <==> !Lands(j)
  {
    SettledFromIff(j);
    TypedRoundTripIff(FromValue(j));
  }

  /** A typed tree, whatever is in it, is stable after one conversion. */
  lemma OneConversionSettles(t: Typed)
    ensures var once := FromValue(ToValue(t)); FromValue(ToValue(once)) == once
  {
    ToValueOk(t);
    StableIff(ToValue(t));
  }

  /** A number's value is kept exactly unless it is the double 2^63 or an unsigned number
      that is not a double. */
  lemma NumberKeptIff(n: Number)
    ensures
      var value := match n case PosInt(u) => u as real case NegInt(i) => i as real case Float(f) => f;
      var kept := match FromNumber(n) case TInt(i) => i as real case TDouble(Finite(f)) => f case _ => 0.0;
      kept == value <==> n != Float(I64_LIMIT as real) && !(n.PosInt? && n.pos >= I64_LIMIT && n.pos % 2048 != 0)
  {
    if n.Float? && Whole(n.float) && n.float == I64_LIMIT as real {
      assert n.float.Floor == I64_LIMIT;
    }
  }

  /** 2^63 as an unsigned number becomes a double, and then the largest `i64`. */
  lemma UnsignedLimitIsUnstable()
    ensures
      var j := Num(PosInt(I64_LIMIT));
      && FromValue(j) == TDouble(Finite(I64_LIMIT as real))
      && FromValue(ToValue(FromValue(j))) == TInt(I64_LIMIT - 1)
  {
    assert (I64_LIMIT as real).Floor == I64_LIMIT;
  }

  /** A whole double becomes an integer, and a number that is not one becomes null. */
  lemma DoublesThatChange()
    ensures FromValue(ToValue(TDouble(Finite(1.0)))) == TInt(1)
    ensures FromValue(ToValue(TDouble(NotFinite))) == TNull
  {
    assert (1.0).Floor == 1;
  }

  /** The double 2^63 loses one; 2^63 + 1 as an unsigned number loses one as well. */
  lemma NumbersThatChange()
    ensures FromNumber(Float(I64_LIMIT as real)) == TInt(I64_LIMIT - 1)
    ensures FromNumber(PosInt(I64_LIMIT + 1)) == TDouble(Finite(I64_LIMIT as real))
  {
    assert (I64_LIMIT as real).Floor == I64_LIMIT;
  }

  /** Null, booleans and texts are what they were, both ways; so are the items of an array
      and the members of an object, in order. */
  lemma ScalarsKept(b: bool, s: string, items: seq<Json>, ms: seq<Member>, i: nat)
    ensures FromValue(Null) == TNull && FromValue(Bool(b)) == TBool(b) && FromValue(Str(s)) == TText(s)
    ensures ToValue(TNull) == Null && ToValue(TBool(b)) == Bool(b) && ToValue(TText(s)) == Str(s)
    ensures |FromValue(Arr(items)).elems| == |items| && |FromValue(Obj(ms)).pairs| == |ms|
    ensures i < |items| ==> FromValue(Arr(items)).elems[i] == FromValue(items[i])
    ensures i < |ms| ==> FromValue(Obj(ms)).pairs[i] == Pair(ms[i].key, FromValue(ms[i].value))
  {
  }

  /** Whole numbers of the `i64` range, as such or as doubles, become integers of that value,
      and those are written as integers. */
  lemma IntegersKept(n: I64)
    ensures FromNumber(ToNumber(n)) == TInt(n)
    ensures FromNumber(Float(n as real)) == TInt(n)
    ensures n >= 0 ==> ToValue(TInt(n)) == Num(PosInt(n))
    ensures n < 0 ==> ToValue(TInt(n)) == Num(NegInt(n))
  {
    assert (n as real).Floor == n;
  }

  lemma Multiple(q: nat)
    ensures (q * 2048) % 2048 == 0 && (q * 2048) / 2048 == q
  {
  }

  /** The rounding: to a multiple of 2048, the nearest, and of two the even one. */
  lemma RoundingSays(u: U64)
    requires u >= I64_LIMIT
    ensures RoundHuge(u) % 2048 == 0
    ensures u - RoundHuge(u) == 1024 || RoundHuge(u) - u == 1024 ==> (RoundHuge(u) / 2048) % 2 == 0
  {
    var below, over := u / 2048, u % 2048;
    assert u == below * 2048 + over;
    Multiple(below);
    Multiple(below + 1);
  }
}
