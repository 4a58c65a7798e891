/** Gateway capabilities: the text a node signs, and what equal texts mean. */
module Capability {
  import opened Prelude
  import opened JsonValue
  import opened CanonicalJson
  import opened CanonicalProofs

  // ---- The canonical writer ----

  lemma {:induction false} ItemSmaller(items: seq<Json>, i: nat)
    requires i < |items|
    ensures Size(items[i]) < Size(Arr(items))
  {
    if i > 0 {
      ItemSmaller(items[1..], i - 1);
    }
  }

  lemma {:induction false} MemberSmaller(ms: seq<Member>, i: nat)
    requires i < |ms|
    ensures Size(ms[i].value) < 1 + SizeMembers(ms)
  {
    if i > 0 {
      MemberSmaller(ms[1..], i - 1);
    }
  }

  /** Append the canonical text of `v` to `out`; a float anywhere is refused. */
  method Canonical(v: Json, out: string) returns (r: Option<string>)
    ensures r.Some? <==> IntegersOnly(v)
    ensures r.Some? ==> r.value == out + Text(v)
    decreases Size(v), 2
  {
    match v
    case Null => return Some(out + "null");
    case Bool(b) => return Some(out + if b then "true" else "false");
    case Str(s) => return Some(out + Literal(s));
    case Num(n) => return if n.Int? then Some(out + Integer(n.i)) else None;
    case Arr(items) =>
      r := CanonicalItems(items, out + "[");
      if r.Some? {
        OpenThen(out, "[", ItemsText(items, true));
      }
    case Obj(ms) =>
      r := CanonicalObject(ms, out + "{");
      if r.Some? {
        OpenThen(out, "{", MembersText(Sorted(ms), true));
      }
  }

  method CanonicalObject(ms: seq<Member>, out: string) returns (r: Option<string>)
    ensures r.Some? <==> Ints(ms)
    ensures r.Some? ==> Ints(Sorted(ms)) && r.value == out + MembersText(Sorted(ms), true)
    decreases Size(Obj(ms)), 1
  {
    var sorted := Sorted(ms);
    r := CanonicalMembers(sorted, out);
    SortedIntsOnlyIf(ms);
  }

  lemma OpenThen(out: string, bracket: string, body: string)
    ensures out + bracket + body == out + (bracket + body)
  {
  }

  lemma SortedIntsOnlyIf(ms: seq<Member>)
    ensures Ints(Sorted(ms)) <==> Ints(ms)
  {
    if Ints(ms) {
      SortedInts(ms);
    }
    if Ints(Sorted(ms)) {
      forall i | 0 <= i < |ms| ensures IntegersOnly(ms[i].value) {
        InSorted(ms, ms[i]);
      }
    }
  }

  method CanonicalItems(items: seq<Json>, out: string) returns (r: Option<string>)
    ensures r.Some? <==> forall i :: 0 <= i < |items| ==> IntegersOnly(items[i])
    ensures r.Some? ==> r.value == out + ItemsText(items, true)
    decreases 1 + SizeItems(items), 0
  {
    var acc := out;
    ghost var ints := forall i :: 0 <= i < |items| ==> IntegersOnly(items[i]);
    assert items[0..] == items;
    for i := 0 to |items|
      invariant forall j :: 0 <= j < i ==> IntegersOnly(items[j])
      invariant ints ==> acc + ItemsText(items[i..], i == 0) == out + ItemsText(items, true)
    {
      ItemSmaller(items, i);
      var before := if i > 0 then acc + "," else acc;
      var one := Canonical(items[i], before);
      if one.None? {
        return None;
      }
      if ints {
        assert items[i..][1..] == items[i + 1..];
        Regroup(acc, i == 0, Text(items[i]), ItemsText(items[i + 1..], false));
      }
      acc := one.value;
    }
    assert items[|items|..] == [];
    return Some(acc + "]");
  }

  lemma Regroup(acc: string, first: bool, head: string, tail: string)
    ensures acc + ((if first then "" else ",") + head + tail) == ((if first then acc else acc + ",") + head) + tail
  {
  }

  method CanonicalMembers(ms: seq<Member>, out: string) returns (r: Option<string>)
    ensures r.Some? <==> Ints(ms)
    ensures r.Some? ==> r.value == out + MembersText(ms, true)
    decreases 1 + SizeMembers(ms), 0
  {
    var acc := out;
    ghost var ints := Ints(ms);
    assert ms[0..] == ms;
    for i := 0 to |ms|
      invariant forall j :: 0 <= j < i ==> IntegersOnly(ms[j].value)
      invariant ints ==> acc + MembersText(ms[i..], i == 0) == out + MembersText(ms, true)
    {
      MemberSmaller(ms, i);
      var before := (if i > 0 then acc + "," else acc) + Literal(ms[i].key) + ":";
      var one := Canonical(ms[i].value, before);
      if one.None? {
        return None;
      }
      if ints {
        assert ms[i..][1..] == ms[i + 1..];
        RegroupMember(acc, i == 0, Literal(ms[i].key), Text(ms[i].value), MembersText(ms[i + 1..], false));
      }
      acc := one.value;
    }
    assert ms[|ms|..] == [];
    return Some(acc + "}");
  }

  lemma RegroupMember(acc: string, first: bool, key: string, value: string, tail: string)
    ensures acc + ((if first then "" else ",") + key + ":" + value + tail) ==
      ((if first then acc else acc + ",") + key + ":" + value) + tail
  {
  }

  // ---- Capabilities ----

  datatype Mode = GatewayHelper | QualifiedRamToken
  datatype OwnerKind = User | ServiceAccount

  datatype Capability = Capability(
    capabilityId: string, connectionId: string, connectionGeneration: nat, provider: string, mode: Mode,
    ownerKind: OwnerKind, ownerId: string, sessionId: string, sessionGeneration: nat, leaseId: string,
    leaseEpoch: nat, audience: string, issuedAt: nat, expiresAt: nat, signature: string)

  const DOMAIN := "jeryu.gateway.capability.v1\0"

  function ModeName(m: Mode): string {
    if m.GatewayHelper? then "gateway_helper" else "qualified_ram_token"
  }

  function OwnerKindName(k: OwnerKind): string {
    if k.User? then "user" else "service_account"
  }

  /** The capability as JSON, in field order, without its signature. */
  function Unsigned(c: Capability): seq<Member> {
    [Member("capability_id", Str(c.capabilityId)),
     Member("connection_id", Str(c.connectionId)),
     Member("connection_generation", Num(Int(c.connectionGeneration))),
     Member("provider", Str(c.provider)),
     Member("mode", Str(ModeName(c.mode))),
     Member("owner_kind", Str(OwnerKindName(c.ownerKind))),
     Member("owner_id", Str(c.ownerId)),
     Member("session_id", Str(c.sessionId)),
     Member("session_generation", Num(Int(c.sessionGeneration))),
     Member("lease_id", Str(c.leaseId)),
     Member("lease_epoch", Num(Int(c.leaseEpoch))),
     Member("audience", Str(c.audience)),
     Member("issued_at_unix_millis", Num(Int(c.issuedAt))),
     Member("expires_at_unix_millis", Num(Int(c.expiresAt)))]
  }

  lemma UnsignedIsCanonicalizable(c: Capability)
    ensures Canonicalizable(Obj(Unsigned(c)))
  {
    var ms := Unsigned(c);
    assert forall i :: 0 <= i < |ms| ==> ms[i].value.Str? || (ms[i].value.Num? && ms[i].value.n.Int?);
    assert Distinct(ms);
  }

  function SigningText(c: Capability): string {
    UnsignedIsCanonicalizable(c);
    DOMAIN + Text(Obj(Unsigned(c)))
  }

  method SigningBytes(c: Capability) returns (text: Option<string>)
    ensures text == Some(SigningText(c))
  {
    UnsignedIsCanonicalizable(c);
    text := Canonical(Obj(Unsigned(c)), DOMAIN);
  }

  predicate Scalars(ms: seq<Member>) {
    forall i :: 0 <= i < |ms| ==> ms[i].value.Str? || ms[i].value.Num?
  }

  predicate SameKeys(a: seq<Member>, b: seq<Member>) {
    |a| == |b| && forall i :: 0 <= i < |a| ==> a[i].key == b[i].key
  }

  /** Flat objects with the same keys in the same order have the same text only if they are equal. */
  lemma SameFlatObjects(a: seq<Member>, b: seq<Member>)
    requires Canonicalizable(Obj(a)) && Canonicalizable(Obj(b))
    requires Scalars(a) && Scalars(b) && SameKeys(a, b) && Text(Obj(a)) == Text(Obj(b))
    ensures a == b
  {
    SameTextExactlyWhenSame(Obj(a), Obj(b));
    forall i | 0 <= i < |a| ensures a[i] == b[i] {
      AbsMembersAt(a, i);
      AbsMembersAt(b, i);
      assert Abs(a[i].value) == Abs(b[i].value);
    }
  }

  lemma UnsignedShape(c: Capability, d: Capability)
    ensures Scalars(Unsigned(c)) && SameKeys(Unsigned(c), Unsigned(d))
  {
  }

  lemma UnsignedDetermines(a: Capability, b: Capability)
    requires Unsigned(a) == Unsigned(b)
    ensures a.(signature := b.signature) == b
  {
    var x, y := Unsigned(a), Unsigned(b);
    assert x[0] == y[0] && x[1] == y[1] && x[2] == y[2] && x[3] == y[3] && x[4] == y[4] && x[5] == y[5] && x[6] == y[6];
    assert x[7] == y[7] && x[8] == y[8] && x[9] == y[9] && x[10] == y[10] && x[11] == y[11] && x[12] == y[12];
    assert x[13] == y[13];
  }

  lemma BehindDomain(s: string, t: string)
    requires DOMAIN + s == DOMAIN + t
    ensures s == t
  {
    assert (DOMAIN + s)[|DOMAIN|..] == s && (DOMAIN + t)[|DOMAIN|..] == t;
  }

  /** Main result: two capabilities are signed over the same text exactly when
      they agree in every field but the signature. */
  lemma SignedTextBindsEveryField(a: Capability, b: Capability)
    ensures SigningText(a) == SigningText(b) <==> a.(signature := b.signature) == b
  {
    if SigningText(a) == SigningText(b) {
      UnsignedIsCanonicalizable(a);
      UnsignedIsCanonicalizable(b);
      BehindDomain(Text(Obj(Unsigned(a))), Text(Obj(Unsigned(b))));
      UnsignedShape(a, b);
      UnsignedShape(b, a);
      SameFlatObjects(Unsigned(a), Unsigned(b));
      UnsignedDetermines(a, b);
    }
  }

  // ---- What the signed text says ----

  /** The members a verifier reads, each under its own key. */
  predicate Describes(m: map<string, Value>, c: Capability) {
    && |m| == 14
    && Says(m, "capability_id", VStr(c.capabilityId)) && Says(m, "connection_id", VStr(c.connectionId))
    && Says(m, "connection_generation", VInt(c.connectionGeneration)) && Says(m, "provider", VStr(c.provider))
    && Says(m, "mode", VStr(if c.mode == GatewayHelper then "gateway_helper" else "qualified_ram_token"))
    && Says(m, "owner_kind", VStr(if c.ownerKind == User then "user" else "service_account"))
    && Says(m, "owner_id", VStr(c.ownerId)) && Says(m, "session_id", VStr(c.sessionId))
    && Says(m, "session_generation", VInt(c.sessionGeneration)) && Says(m, "lease_id", VStr(c.leaseId))
    && Says(m, "lease_epoch", VInt(c.leaseEpoch)) && Says(m, "audience", VStr(c.audience))
    && Says(m, "issued_at_unix_millis", VInt(c.issuedAt)) && Says(m, "expires_at_unix_millis", VInt(c.expiresAt))
  }

  predicate Says(m: map<string, Value>, key: string, v: Value) {
    key in m && m[key] == v
  }

  lemma FieldSays(ms: seq<Member>, i: nat, key: string, v: Value)
    requires Ints(ms) && Distinct(ms) && i < |ms| && ms[i].key == key && Abs(ms[i].value) == v
    ensures Says(AbsMembers(ms), key, v)
  {
    AbsMembersAt(ms, i);
  }

  lemma {:induction false} AbsCount(ms: seq<Member>)
    requires Ints(ms) && Distinct(ms)
    ensures |AbsMembers(ms)| == |ms|
  {
    if ms != [] {
      AbsCount(ms[1..]);
      AbsMembersKeys(ms[1..], ms[0].key);
    }
  }

  lemma ConnectionFields(c: Capability)
    requires Canonicalizable(Obj(Unsigned(c)))
    ensures
      var m := AbsMembers(Unsigned(c));
      && Says(m, "capability_id", VStr(c.capabilityId))
      && Says(m, "connection_id", VStr(c.connectionId))
      && Says(m, "connection_generation", VInt(c.connectionGeneration))
      && Says(m, "provider", VStr(c.provider))
  {
    var ms := Unsigned(c);
    FieldSays(ms, 0, "capability_id", VStr(c.capabilityId));
    FieldSays(ms, 1, "connection_id", VStr(c.connectionId));
    FieldSays(ms, 2, "connection_generation", VInt(c.connectionGeneration));
    FieldSays(ms, 3, "provider", VStr(c.provider));
  }

  lemma OwnerFields(c: Capability)
    requires Canonicalizable(Obj(Unsigned(c)))
    ensures
      var m := AbsMembers(Unsigned(c));
      && Says(m, "mode", VStr(if c.mode == GatewayHelper then "gateway_helper" else "qualified_ram_token"))
      && Says(m, "owner_kind", VStr(if c.ownerKind == User then "user" else "service_account"))
      && Says(m, "owner_id", VStr(c.ownerId))
  {
    var ms := Unsigned(c);
    FieldSays(ms, 4, "mode", VStr(if c.mode == GatewayHelper then "gateway_helper" else "qualified_ram_token"));
    FieldSays(ms, 5, "owner_kind", VStr(if c.ownerKind == User then "user" else "service_account"));
    FieldSays(ms, 6, "owner_id", VStr(c.ownerId));
  }

  lemma SessionFields(c: Capability)
    requires Canonicalizable(Obj(Unsigned(c)))
    ensures
      var m := AbsMembers(Unsigned(c));
      && Says(m, "session_id", VStr(c.sessionId))
      && Says(m, "session_generation", VInt(c.sessionGeneration))
      && Says(m, "lease_id", VStr(c.leaseId))
  {
    var ms := Unsigned(c);
    FieldSays(ms, 7, "session_id", VStr(c.sessionId));
    FieldSays(ms, 8, "session_generation", VInt(c.sessionGeneration));
    FieldSays(ms, 9, "lease_id", VStr(c.leaseId));
  }

  lemma LeaseFields(c: Capability)
    requires Canonicalizable(Obj(Unsigned(c)))
    ensures
      var m := AbsMembers(Unsigned(c));
      && Says(m, "lease_epoch", VInt(c.leaseEpoch))
      && Says(m, "audience", VStr(c.audience))
      && Says(m, "issued_at_unix_millis", VInt(c.issuedAt))
      && Says(m, "expires_at_unix_millis", VInt(c.expiresAt))
  {
    var ms := Unsigned(c);
    FieldSays(ms, 10, "lease_epoch", VInt(c.leaseEpoch));
    FieldSays(ms, 11, "audience", VStr(c.audience));
    FieldSays(ms, 12, "issued_at_unix_millis", VInt(c.issuedAt));
    FieldSays(ms, 13, "expires_at_unix_millis", VInt(c.expiresAt));
  }

  /** Main result: the text is the domain and one JSON object, which a reader takes
      for this capability, key by key, without a signature. */
  lemma SignedTextSays(c: Capability) returns (text: string, m: map<string, Value>)
    ensures SigningText(c) == "jeryu.gateway.capability.v1\0" + text
    ensures Decode(text) == Some(VObj(m)) && Describes(m, c)
  {
    UnsignedIsCanonicalizable(c);
    text, m := Text(Obj(Unsigned(c))), AbsMembers(Unsigned(c));
    DecodeText(Obj(Unsigned(c)));
    AbsCount(Unsigned(c));
    ConnectionFields(c);
    OwnerFields(c);
    SessionFields(c);
    LeaseFields(c);
  }
}
