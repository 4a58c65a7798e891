/** JSON values as `serde_json` holds them: integers apart from floats, object
    members in the order they were inserted. */
module JsonValue {
  import opened Prelude

  datatype Number = Int(i: int) | Float(text: string)

  datatype Member = Member(key: string, value: Json)

  datatype Json =
    | Null
    | Bool(b: bool)
    | Num(n: Number)
    | Str(s: string)
    | Arr(items: seq<Json>)
    | Obj(members: seq<Member>)

  const U32_LIMIT := 0x1_0000_0000
  const U64_LIMIT := 0x1_0000_0000_0000_0000

  /** `Value::get` with a string index. */
  function Get(j: Json, key: string): Option<Json> {
    if j.Obj? then Lookup(j.members, key) else None
  }

  function Lookup(ms: seq<Member>, key: string): Option<Json> {
    if ms == [] then None
    else if ms[0].key == key then Some(ms[0].value)
    else Lookup(ms[1..], key)
  }

  /** `Map::insert`: the value of a key that is present, a new last member otherwise. */
  function Insert(ms: seq<Member>, key: string, value: Json): seq<Member> {
    if ms == [] then [Member(key, value)]
    else if ms[0].key == key then [Member(key, value)] + ms[1..]
    else [ms[0]] + Insert(ms[1..], key, value)
  }

  lemma {:induction false} LookupInserted(ms: seq<Member>, key: string, value: Json, other: string)
    ensures Lookup(Insert(ms, key, value), other) == if other == key then Some(value) else Lookup(ms, other)
  {
    if ms != [] && ms[0].key != key {
      LookupInserted(ms[1..], key, value, other);
      assert ([ms[0]] + Insert(ms[1..], key, value))[1..] == Insert(ms[1..], key, value);
    } else if ms != [] {
      assert ([Member(key, value)] + ms[1..])[1..] == ms[1..];
    }
  }

  /** The member `i` is the first with that key, and holds `v`. */
  predicate At(ms: seq<Member>, key: string, v: Json, i: nat) {
    i < |ms| && ms[i] == Member(key, v) && forall k :: 0 <= k < i ==> ms[k].key != key
  }

  /** The object holds `v` under that key. */
  ghost predicate Holds(j: Json, key: string, v: Json) {
    j.Obj? && exists i: nat :: At(j.members, key, v, i)
  }

  predicate Lacks(j: Json, key: string) {
    j.Obj? ==> forall i :: 0 <= i < |j.members| ==> j.members[i].key != key
  }

  lemma {:induction false} LookupFinds(ms: seq<Member>, key: string) returns (i: nat)
    ensures Lookup(ms, key).Some? ==> At(ms, key, Lookup(ms, key).value, i)
    ensures Lookup(ms, key).None? ==> forall k :: 0 <= k < |ms| ==> ms[k].key != key
  {
    i := 0;
    if ms != [] && ms[0].key != key {
      i := LookupFinds(ms[1..], key);
      i := i + 1;
    }
  }

  /** What a key reads as is what the object holds under it. */
  lemma GetExactly(j: Json, key: string, v: Json)
    ensures Get(j, key) == Some(v) <==> Holds(j, key, v)
    ensures Get(j, key).None? <==> Lacks(j, key)
  {
    if j.Obj? {
      var i := LookupFinds(j.members, key);
      if k: nat :| At(j.members, key, v, k) && Get(j, key).Some? {
        assert i == k;
      }
    }
  }

  function AsU64(j: Option<Json>): (r: Option<nat>)
    ensures r.Some? ==> r.value < U64_LIMIT && j == Some(Num(Int(r.value)))
  {
    if j.Some? && j.value.Num? && j.value.n.Int? && 0 <= j.value.n.i < U64_LIMIT
    then Some(j.value.n.i) else None
  }

  function AsU32(j: Option<Json>): (r: Option<nat>)
    ensures r.Some? ==> r.value < U32_LIMIT && j == Some(Num(Int(r.value)))
  {
    var n := AsU64(j);
    if n.Some? && n.value < U32_LIMIT then n else None
  }

  function AsStr(j: Option<Json>): Option<string> {
    if j.Some? && j.value.Str? then Some(j.value.s) else None
  }

  /** An array of strings, or nothing if any element is not a string. */
  function AsStrings(j: Option<Json>): Option<seq<string>> {
    if j.Some? && j.value.Arr? && forall i :: 0 <= i < |j.value.items| ==> j.value.items[i].Str?
    then Some(seq(|j.value.items|, i requires 0 <= i < |j.value.items| => j.value.items[i].s))
    else None
  }
}
