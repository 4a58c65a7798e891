/** The canonical JSON text a capability is signed over: members sorted by key,
    no whitespace, integers only.

    `Decode` is an independent reader of that text. Reading back what was
    written gives the value with the order of its members forgotten, so equal
    texts mean equal values up to member order, and the converse holds too.
    Text is a sequence of characters; its UTF-8 encoding is not part of the model. */
module CanonicalJson {
  import opened Prelude
  import opened JsonValue
  import Lex

  /** A JSON value without an order on object members. */
  datatype Value =
    | VNull
    | VBool(b: bool)
    | VInt(i: int)
    | VStr(s: string)
    | VArr(items: seq<Value>)
    | VObj(members: map<string, Value>)

  // ---- Sizes: what the recursions over sorted members go down on ----

  function Size(v: Json): nat
    decreases v, 1
  {
    match v
    case Arr(items) => 1 + SizeItems(items)
    case Obj(ms) => 1 + SizeMembers(ms)
    case _ => 1
  }

  function SizeItems(items: seq<Json>): nat
    decreases items, 0
  {
    if items == [] then 0 else 1 + Size(items[0]) + SizeItems(items[1..])
  }

  function SizeMembers(ms: seq<Member>): nat
    decreases ms, 0
  {
    if ms == [] then 0 else 1 + Size(ms[0].value) + SizeMembers(ms[1..])
  }

  // ---- Sorting members by key ----

  function Place(m: Member, sorted: seq<Member>): (r: seq<Member>)
    ensures SizeMembers(r) == 1 + Size(m.value) + SizeMembers(sorted)
    ensures multiset(r) == multiset(sorted) + multiset{m}
  {
    if sorted == [] then
      assert [m][1..] == [];
      [m]
    else if Lex.Less(m.key, sorted[0].key) then
      assert ([m] + sorted)[1..] == sorted;
      [m] + sorted
    else
      var rest := Place(m, sorted[1..]);
      assert ([sorted[0]] + rest)[1..] == rest && sorted == [sorted[0]] + sorted[1..];
      [sorted[0]] + rest
  }

  function Sorted(ms: seq<Member>): (r: seq<Member>)
    ensures SizeMembers(r) == SizeMembers(ms)
    ensures multiset(r) == multiset(ms)
  {
    if ms == [] then []
    else
      assert ms == [ms[0]] + ms[1..];
      Place(ms[0], Sorted(ms[1..]))
  }

  // ---- The canonical text ----

  predicate IntegersOnly(v: Json)
    decreases v, 1
  {
    match v
    case Num(n) => n.Int?
    case Arr(items) => forall i :: 0 <= i < |items| ==> IntegersOnly(items[i])
    case Obj(ms) => forall i :: 0 <= i < |ms| ==> IntegersOnly(ms[i].value)
    case _ => true
  }

  /** Keys of an object differ, as in every map `serde_json` builds. */
  predicate DistinctKeys(v: Json)
    decreases v, 1
  {
    match v
    case Arr(items) => forall i :: 0 <= i < |items| ==> DistinctKeys(items[i])
    case Obj(ms) => Distinct(ms) && forall i :: 0 <= i < |ms| ==> DistinctKeys(ms[i].value)
    case _ => true
  }

  predicate Distinct(ms: seq<Member>) {
    forall i, j :: 0 <= i < j < |ms| ==> ms[i].key != ms[j].key
  }

  predicate Canonicalizable(v: Json) {
    IntegersOnly(v) && DistinctKeys(v)
  }

  function HexDigit(n: nat): char
    requires n < 16
  {
    if n < 10 then (n + 48) as char else (n + 87) as char
  }

  /** The escapes of `serde_json` (section 7 of RFC 8259). */
  function Escape(c: char): string {
    match c
    case '\"' => "\\\""
    case '\\' => "\\\\"
    case '\n' => "\\n"
    case '\r' => "\\r"
    case '\t' => "\\t"
    case _ =>
      var n := c as int;
      if n == 8 then "\\b"
      else if n == 12 then "\\f"
      else if n < 32 then "\\u00" + [HexDigit(n / 16), HexDigit(n % 16)]
      else [c]
  }

  function EscapeAll(s: string): string {
    if s == [] then [] else Escape(s[0]) + EscapeAll(s[1..])
  }

  function Literal(s: string): string {
    "\"" + EscapeAll(s) + "\""
  }

  function Digits(n: nat): (s: string)
    ensures s != [] && forall i :: 0 <= i < |s| ==> '0' <= s[i] <= '9'
  {
    if n < 10 then [(n + 48) as char] else Digits(n / 10) + [(n % 10 + 48) as char]
  }

  function Integer(i: int): (s: string)
    ensures s != [] && forall j :: 0 <= j < |s| ==> IsNumeric(s[j])
  {
    if i < 0 then "-" + Digits(-i) else Digits(i)
  }

  predicate IsNumeric(c: char) {
    c == '-' || '0' <= c <= '9'
  }

  function Text(v: Json): string
    requires IntegersOnly(v)
    decreases Size(v), 1
  {
    match v
    case Null => "null"
    case Bool(b) => if b then "true" else "false"
    case Num(n) => Integer(n.i)
    case Str(s) => Literal(s)
    case Arr(items) => "[" + ItemsText(items, true)
    case Obj(ms) =>
      SortedInts(ms);
      "{" + MembersText(Sorted(ms), true)
  }

  /** The items left, each after a comma unless it is the first, and the bracket. */
  function ItemsText(items: seq<Json>, first: bool): string
    requires forall i :: 0 <= i < |items| ==> IntegersOnly(items[i])
    decreases SizeItems(items), 0
  {
    if items == [] then "]"
    else (if first then "" else ",") + Text(items[0]) + ItemsText(items[1..], false)
  }

  function MembersText(ms: seq<Member>, first: bool): string
    requires forall i :: 0 <= i < |ms| ==> IntegersOnly(ms[i].value)
    decreases SizeMembers(ms), 0
  {
    if ms == [] then "}"
    else (if first then "" else ",") + Literal(ms[0].key) + ":" + Text(ms[0].value) + MembersText(ms[1..], false)
  }

  lemma SortedInts(ms: seq<Member>)
    requires forall i :: 0 <= i < |ms| ==> IntegersOnly(ms[i].value)
    ensures forall i :: 0 <= i < |Sorted(ms)| ==> IntegersOnly(Sorted(ms)[i].value)
  {
    forall i | 0 <= i < |Sorted(ms)| ensures IntegersOnly(Sorted(ms)[i].value) {
      InSorted(ms, Sorted(ms)[i]);
    }
  }

  lemma InSorted(ms: seq<Member>, m: Member)
    ensures m in Sorted(ms) <==> m in ms
  {
    assert m in multiset(Sorted(ms)) <==> m in multiset(ms);
  }

  // ---- Forgetting the order ----

  function Abs(v: Json): Value
    requires IntegersOnly(v)
    decreases v, 1
  {
    match v
    case Null => VNull
    case Bool(b) => VBool(b)
    case Num(n) => VInt(n.i)
    case Str(s) => VStr(s)
    case Arr(items) => VArr(AbsItems(items))
    case Obj(ms) => VObj(AbsMembers(ms))
  }

  function AbsItems(items: seq<Json>): (r: seq<Value>)
    requires forall i :: 0 <= i < |items| ==> IntegersOnly(items[i])
    ensures |r| == |items|
    decreases items, 0
  {
    if items == [] then [] else [Abs(items[0])] + AbsItems(items[1..])
  }

  function AbsMembers(ms: seq<Member>): map<string, Value>
    requires forall i :: 0 <= i < |ms| ==> IntegersOnly(ms[i].value)
    decreases ms, 0
  {
    if ms == [] then map[] else AbsMembers(ms[1..])[ms[0].key := Abs(ms[0].value)]
  }

  // ---- An independent reader ----

  function ReadHex(c: char): Option<nat> {
    if '0' <= c <= '9' then Some((c as int - 48) as nat)
    else if 'a' <= c <= 'f' then Some((c as int - 87) as nat)
    else None
  }

  /** One character of a string literal and what follows it. */
  function ReadChar(t: string): (r: Option<(char, string)>)
    ensures r.Some? ==> |r.value.1| < |t|
  {
    if t == [] || t[0] == '\"' then None
    else if t[0] != '\\' then Some((t[0], t[1..]))
    else if |t| < 2 then None
    else
      match t[1]
      case '\"' => Some(('\"', t[2..]))
      case '\\' => Some(('\\', t[2..]))
      case 'n' => Some(('\n', t[2..]))
      case 'r' => Some(('\r', t[2..]))
      case 't' => Some(('\t', t[2..]))
      case 'b' => Some((8 as char, t[2..]))
      case 'f' => Some((12 as char, t[2..]))
      case 'u' =>
        if |t| < 6 then None
        else
          var hi, lo := ReadHex(t[4]), ReadHex(t[5]);
          if hi.None? || lo.None? || t[2] != '0' || t[3] != '0' then None
          else Some(((hi.value * 16 + lo.value) as char, t[6..]))
      case _ => None
  }

  /** The rest of a string literal, after its opening quote. */
  function ReadString(t: string): (r: Option<(string, string)>)
    ensures r.Some? ==> |r.value.1| < |t|
    decreases |t|
  {
    if t != [] && t[0] == '\"' then Some(("", t[1..]))
    else
      var one := ReadChar(t);
      if one.None? then None
      else
        var more := ReadString(one.value.1);
        if more.None? then None else Some(([one.value.0] + more.value.0, more.value.1))
  }

  /** How many leading characters could belong to a number. */
  function Run(t: string): (n: nat)
    ensures n <= |t|
  {
    if t == [] || !IsNumeric(t[0]) then 0 else 1 + Run(t[1..])
  }

  function ReadDigits(s: string): int {
    if s == [] then 0 else ReadDigits(s[..|s| - 1]) * 10 + (s[|s| - 1] as int - 48)
  }

  function ReadInteger(s: string): int {
    if s != [] && s[0] == '-' then -ReadDigits(s[1..]) else ReadDigits(s)
  }

  function Read(t: string): (r: Option<(Value, string)>)
    ensures r.Some? ==> |r.value.1| < |t|
    decreases |t|, 1
  {
    if t == [] then None
    else if "null" <= t then Some((VNull, t[4..]))
    else if "true" <= t then Some((VBool(true), t[4..]))
    else if "false" <= t then Some((VBool(false), t[5..]))
    else if t[0] == '\"' then
      var s := ReadString(t[1..]);
      if s.None? then None else Some((VStr(s.value.0), s.value.1))
    else if IsNumeric(t[0]) then Some((VInt(ReadInteger(t[..Run(t)])), t[Run(t)..]))
    else if t[0] == '[' then
      var items := ReadItems(t[1..], true);
      if items.None? then None else Some((VArr(items.value.0), items.value.1))
    else if t[0] == '{' then
      var ms := ReadMembers(t[1..], true);
      if ms.None? then None else Some((VObj(ms.value.0), ms.value.1))
    else None
  }

  /** Past the comma that separates this element from the one before it. */
  function Separated(t: string, first: bool): (r: Option<string>)
    ensures r.Some? ==> |r.value| <= |t|
  {
    if first then Some(t) else if t != [] && t[0] == ',' then Some(t[1..]) else None
  }

  function ReadItems(t: string, first: bool): (r: Option<(seq<Value>, string)>)
    ensures r.Some? ==> |r.value.1| < |t|
    decreases |t|, 2
  {
    if t != [] && t[0] == ']' then Some(([], t[1..]))
    else
      var start := Separated(t, first);
      if start.None? then None
      else
        var one := Read(start.value);
        if one.None? then None
        else
          var more := ReadItems(one.value.1, false);
          if more.None? then None else Some(([one.value.0] + more.value.0, more.value.1))
  }

  function ReadMembers(t: string, first: bool): (r: Option<(map<string, Value>, string)>)
    ensures r.Some? ==> |r.value.1| < |t|
    decreases |t|, 2
  {
    if t != [] && t[0] == '}' then Some((map[], t[1..]))
    else
      var start := Separated(t, first);
      if start.None? || start.value == [] || start.value[0] != '\"' then None
      else
        var key := ReadString(start.value[1..]);
        if key.None? || key.value.1 == [] || key.value.1[0] != ':' then None
        else
          var one := Read(key.value.1[1..]);
          if one.None? then None
          else
            var more := ReadMembers(one.value.1, false);
            if more.None? then None else Some((more.value.0[key.value.0 := one.value.0], more.value.1))
  }

  function Decode(t: string): Option<Value> {
    var r := Read(t);
    if r.Some? && r.value.1 == [] then Some(r.value.0) else None
  }
}
