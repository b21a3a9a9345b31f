/** The `serde_json::Map` that an encoder fills in place, key by key. */
module JsonObjects {
  import opened Wrappers
  import opened JsonTree

  /** A value that is written under a condition. */
  function When(c: bool, j: Json): Option<Json> {
    if c then Some(j) else None
  }

  /** Different keys have different names. */
  ghost predicate Injective<F(!new)>(name: F -> string) {
    forall f, g :: name(f) == name(g) ==> f == g
  }

  ghost predicate Known<F(!new)>(name: F -> string, key: string) {
    exists f :: key == name(f)
  }

  /** The object holds, among the keys in `done`, those that `want` has a value for, and
      no other key. */
  ghost predicate Holds<F(!new)>(ms: seq<Member>, name: F -> string, want: F -> Option<Json>, done: set<F>) {
    && Ordered(ms)
    && (forall f {:trigger Find(ms, name(f))} :: Find(ms, name(f)) == if f in done then want(f) else None)
    && forall i :: 0 <= i < |ms| ==> Known(name, ms[i].key)
  }

  lemma HoldsAt<F(!new)>(ms: seq<Member>, name: F -> string, want: F -> Option<Json>, done: set<F>, f: F)
    requires Holds(ms, name, want, done)
    ensures Find(ms, name(f)) == if f in done then want(f) else None
  {
  }

  lemma PutHolds<F(!new)>(
      ms: seq<Member>, name: F -> string, want: F -> Option<Json>, done: set<F>, f: F, j: Json)
    requires Injective(name) && Holds(ms, name, want, done) && want(f) == Some(j)
    ensures Holds(Put(ms, name(f), j), name, want, done + {f})
  {
    var put := Put(ms, name(f), j);
    PutOrdered(ms, name(f), j);
    forall g ensures Find(put, name(g)) == if g in done + {f} then want(g) else None {
      FindPut(ms, name(f), j, name(g));
      HoldsAt(ms, name, want, done, g);
    }
    PutMembers(ms, name(f), j);
    forall i | 0 <= i < |put| ensures Known(name, put[i].key) {
      if put[i] != Member(name(f), j) {
        var k :| 0 <= k < |ms| && ms[k] == put[i];
      }
    }
  }

  /** The object that inserting the wanted keys in some order makes. */
  function Fill<F>(name: F -> string, want: F -> Option<Json>, order: seq<F>): seq<Member> {
    if order == [] then []
    else
      var rest, last := Fill(name, want, order[..|order| - 1]), order[|order| - 1];
      match want(last)
      case Some(j) => Put(rest, name(last), j)
      case None => rest
  }

  lemma {:induction false} FillHolds<F(!new)>(name: F -> string, want: F -> Option<Json>, order: seq<F>)
    requires Injective(name)
    ensures Holds(Fill(name, want, order), name, want, set f | f in order)
  {
    if order != [] {
      var front, last := order[..|order| - 1], order[|order| - 1];
      FillHolds(name, want, front);
      assert (set f | f in order) == (set f | f in front) + {last};
      if want(last).Some? {
        PutHolds(Fill(name, want, front), name, want, (set f | f in front), last, want(last).value);
      }
    }
  }

  /** The object, and how far its encoder has come: `done` are the keys it has dealt with,
      by inserting a value or by omitting it. */
  class JsonMap<F(!new)> {
    var members: seq<Member>
    const name: F -> string
    ghost const want: F -> Option<Json>
    ghost var done: set<F>

    ghost predicate Valid()
      reads this
    {
      Injective(name) && Holds(members, name, want, done)
    }

    constructor (name: F -> string, ghost want: F -> Option<Json>)
      requires Injective(name)
      ensures Valid() && done == {} && this.want == want && this.name == name
    {
      members := [];
      done := {};
      this.name := name;
      this.want := want;
    }

    method Insert(f: F, j: Json)
      requires Valid() && want(f) == Some(j)
      modifies this
      ensures Valid() && done == old(done) + {f}
    {
      PutHolds(members, name, want, done, f, j);
      members := Put(members, name(f), j);
      done := done + {f};
    }

    ghost method Omit(f: F)
      requires Valid() && want(f) == None
      modifies this`done
      ensures Valid() && done == old(done) + {f}
    {
      done := done + {f};
    }
  }
}
