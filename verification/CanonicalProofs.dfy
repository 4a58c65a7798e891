/** Canonical text and value determine each other. */
module CanonicalProofs {
  import opened Prelude
  import opened JsonValue
  import opened CanonicalJson
  import Lex

  // ---- Strings and numbers ----

  lemma ReadEscape(c: char, x: string)
    ensures ReadChar(Escape(c) + x) == Some((c, x))
  {
    var t := Escape(c) + x;
    var n := c as int;
    if |Escape(c)| == 1 {
      assert t[1..] == x;
    } else if |Escape(c)| == 2 {
      assert t[2..] == x;
    } else {
      assert t[4] == HexDigit(n / 16) && t[5] == HexDigit(n % 16) && t[6..] == x;
      HexRoundTrip(n / 16);
      HexRoundTrip(n % 16);
    }
  }

  /** A character stands for itself unless JSON says otherwise, has its short escape
      where there is one, and else the one of six characters. */
  lemma EscapesExactlyWhen(c: char)
    ensures |Escape(c)| == 1 <==> c != '\"' && c != '\\' && c as int >= 32
    ensures |Escape(c)| == 2 <==> c == '\"' || c == '\\' || c as int in {8, 9, 10, 12, 13}
    ensures |Escape(c)| == 1 || |Escape(c)| == 2 || |Escape(c)| == 6
  {
  }

  lemma HexRoundTrip(n: nat)
    requires n < 16
    ensures ReadHex(HexDigit(n)) == Some(n)
  {
  }

  lemma {:induction false} ReadEscaped(s: string, x: string)
    ensures ReadString(EscapeAll(s) + "\"" + x) == Some((s, x))
  {
    var t := EscapeAll(s) + "\"" + x;
    if s == [] {
      assert t[1..] == x;
    } else {
      var rest := EscapeAll(s[1..]) + "\"" + x;
      assert t == Escape(s[0]) + rest;
      ReadEscape(s[0], rest);
      assert t[0] != '\"' by { assert t[0] == Escape(s[0])[0]; }
      ReadEscaped(s[1..], x);
      assert s == [s[0]] + s[1..];
    }
  }

  lemma ReadLiteral(s: string, x: string)
    ensures Literal(s) + x != [] && (Literal(s) + x)[0] == '\"'
    ensures ReadString((Literal(s) + x)[1..]) == Some((s, x))
  {
    assert (Literal(s) + x)[1..] == EscapeAll(s) + "\"" + x;
    ReadEscaped(s, x);
  }

  predicate Delimited(x: string) {
    x == [] || x[0] == ',' || x[0] == ']' || x[0] == '}'
  }

  lemma {:induction false} RunOfNumber(a: string, x: string)
    requires Delimited(x) && forall i :: 0 <= i < |a| ==> IsNumeric(a[i])
    ensures Run(a + x) == |a|
  {
    if a == [] {
      assert a + x == x;
    } else {
      assert (a + x)[1..] == a[1..] + x;
      RunOfNumber(a[1..], x);
    }
  }

  lemma {:induction false} DigitsRoundTrip(n: nat)
    ensures ReadDigits(Digits(n)) == n
  {
    if n < 10 {
      assert Digits(n)[..0] == [];
    } else {
      DigitsRoundTrip(n / 10);
      var s := Digits(n);
      assert s[..|s| - 1] == Digits(n / 10);
    }
  }

  /** No number but zero starts with a zero. */
  lemma {:induction false} NoLeadingZero(n: nat)
    ensures Digits(n)[0] == '0' <==> n == 0
    ensures n == 0 ==> |Digits(n)| == 1
  {
    if n >= 10 {
      NoLeadingZero(n / 10);
    }
  }

  /** A minus sign stands before the digits exactly of a negative number. */
  lemma SignExactly(i: int)
    ensures Integer(i)[0] == '-' <==> i < 0
  {
  }

  lemma IntegerRoundTrip(i: int)
    ensures ReadInteger(Integer(i)) == i
  {
    if i < 0 {
      DigitsRoundTrip(-i);
      assert Integer(i)[1..] == Digits(-i);
    } else {
      DigitsRoundTrip(i);
    }
  }

  // ---- Members as a map ----

  predicate Ints(ms: seq<Member>) {
    forall i :: 0 <= i < |ms| ==> IntegersOnly(ms[i].value)
  }

  lemma {:induction false} AbsMembersKeys(ms: seq<Member>, k: string)
    requires Ints(ms)
    ensures k in AbsMembers(ms) <==> exists i :: 0 <= i < |ms| && ms[i].key == k
  {
    if ms != [] {
      AbsMembersKeys(ms[1..], k);
      if k in AbsMembers(ms[1..]) {
        var i :| 0 <= i < |ms[1..]| && ms[1..][i].key == k;
        assert ms[i + 1].key == k;
      }
      if i :| 0 <= i < |ms| && ms[i].key == k {
        assert i > 0 ==> ms[1..][i - 1].key == k;
      }
    }
  }

  lemma {:induction false} AbsMembersAt(ms: seq<Member>, i: nat)
    requires Ints(ms) && Distinct(ms) && i < |ms|
    ensures ms[i].key in AbsMembers(ms) && AbsMembers(ms)[ms[i].key] == Abs(ms[i].value)
  {
    if i > 0 {
      AbsMembersAt(ms[1..], i - 1);
    }
  }

  lemma InPlace(m: Member, sorted: seq<Member>, i: nat)
    requires i < |Place(m, sorted)|
    ensures Place(m, sorted)[i] == m || exists j :: 0 <= j < |sorted| && sorted[j] == Place(m, sorted)[i]
  {
    var x := Place(m, sorted)[i];
    assert x in multiset(Place(m, sorted));
    if x != m {
      assert x in multiset(sorted);
    }
  }

  lemma {:induction false} PlaceDistinct(m: Member, sorted: seq<Member>)
    requires StrictlySorted(sorted) && forall i :: 0 <= i < |sorted| ==> sorted[i].key != m.key
    ensures StrictlySorted(Place(m, sorted))
  {
    if sorted != [] {
      var head := sorted[0];
      if Lex.Less(m.key, head.key) {
        forall i | 1 <= i < |sorted| ensures Lex.Less(m.key, sorted[i].key) {
          Lex.Transitive(m.key, head.key, sorted[i].key);
        }
      } else {
        Lex.Total(m.key, head.key);
        PlaceDistinct(m, sorted[1..]);
        var rest := Place(m, sorted[1..]);
        forall i | 0 <= i < |rest| ensures Lex.Less(head.key, rest[i].key) {
          InPlace(m, sorted[1..], i);
        }
      }
    }
  }

  predicate StrictlySorted(ms: seq<Member>) {
    forall i, j :: 0 <= i < j < |ms| ==> Lex.Less(ms[i].key, ms[j].key)
  }

  lemma {:induction false} SortedIsStrict(ms: seq<Member>)
    requires Distinct(ms)
    ensures StrictlySorted(Sorted(ms))
  {
    if ms != [] {
      var rest := Sorted(ms[1..]);
      SortedIsStrict(ms[1..]);
      forall i | 0 <= i < |rest| ensures rest[i].key != ms[0].key {
        InSorted(ms[1..], rest[i]);
      }
      PlaceDistinct(ms[0], rest);
    }
  }

  /** Main result: members are written in ascending order of their keys. */
  lemma KeysAscend(ms: seq<Member>, i: nat, j: nat)
    requires Distinct(ms) && i < j < |Sorted(ms)|
    ensures Lex.Below(Sorted(ms)[i].key, Sorted(ms)[j].key) && multiset(Sorted(ms)) == multiset(ms)
  {
    SortedIsStrict(ms);
    Lex.LessIsBelow(Sorted(ms)[i].key, Sorted(ms)[j].key);
  }

  lemma StrictIsDistinct(ms: seq<Member>)
    requires StrictlySorted(ms)
    ensures Distinct(ms)
  {
    forall i, j | 0 <= i < j < |ms| ensures ms[i].key != ms[j].key {
      Lex.Asymmetric(ms[i].key, ms[j].key);
    }
  }

  /** Sorting members does not change the object. */
  lemma SortedSameObject(ms: seq<Member>)
    requires Ints(ms) && Distinct(ms)
    ensures Ints(Sorted(ms)) && AbsMembers(Sorted(ms)) == AbsMembers(ms)
  {
    var sorted := Sorted(ms);
    SortedInts(ms);
    SortedIsStrict(ms);
    StrictIsDistinct(sorted);
    var a, b := AbsMembers(sorted), AbsMembers(ms);
    forall k ensures (k in a <==> k in b) && (k in a && k in b ==> a[k] == b[k]) {
      SortedSameKey(ms, k);
    }
    assert a == b;
  }

  lemma SortedSameKey(ms: seq<Member>, k: string)
    requires Ints(ms) && Distinct(ms) && Ints(Sorted(ms)) && Distinct(Sorted(ms))
    ensures
      var a, b := AbsMembers(Sorted(ms)), AbsMembers(ms);
      (k in a <==> k in b) && (k in a && k in b ==> a[k] == b[k])
  {
    var sorted := Sorted(ms);
    AbsMembersKeys(sorted, k);
    AbsMembersKeys(ms, k);
    if i :| 0 <= i < |ms| && ms[i].key == k {
      InSorted(ms, ms[i]);
      var j :| 0 <= j < |sorted| && sorted[j] == ms[i];
      AbsMembersAt(ms, i);
      AbsMembersAt(sorted, j);
    } else if j :| 0 <= j < |sorted| && sorted[j].key == k {
      InSorted(ms, sorted[j]);
    }
  }

  // ---- Reading back ----

  lemma TextStarts(v: Json)
    requires IntegersOnly(v)
    ensures Text(v) != [] && Text(v)[0] != ']' && Text(v)[0] != '}'
  {
    if v.Num? {
      assert IsNumeric(Integer(v.n.i)[0]);
    }
  }

  predicate GoodItems(items: seq<Json>) {
    && (forall i :: 0 <= i < |items| ==> IntegersOnly(items[i]))
    && (forall i :: 0 <= i < |items| ==> DistinctKeys(items[i]))
  }

  predicate GoodMembers(ms: seq<Member>) {
    Ints(ms) && forall i :: 0 <= i < |ms| ==> DistinctKeys(ms[i].value)
  }

  lemma ReadNumber(i: int, x: string)
    requires Delimited(x)
    ensures Read(Integer(i) + x) == Some((VInt(i), x))
  {
    var s := Integer(i);
    var t := s + x;
    RunOfNumber(s, x);
    IntegerRoundTrip(i);
    assert t[..|s|] == s && t[|s|..] == x;
    assert IsNumeric(s[0]) && t[0] == s[0];
  }

  lemma ReadScalar(v: Json, x: string)
    requires IntegersOnly(v) && !v.Arr? && !v.Obj? && Delimited(x)
    ensures Read(Text(v) + x) == Some((Abs(v), x))
  {
    var t := Text(v) + x;
    match v
    case Null => assert t[4..] == x && t[..4] == "null";
    case Bool(b) =>
      assert t[0] == if b then 't' else 'f';
      assert if b then t[4..] == x && t[..4] == "true" else t[5..] == x && t[..5] == "false";
    case Num(n) => ReadNumber(n.i, x);
    case Str(s) => ReadLiteral(s, x);
  }

  /** Round trip: reading the canonical text of a value gives the value, and
      stops exactly where the text stops. */
  lemma {:induction false} ReadText(v: Json, x: string)
    requires Canonicalizable(v) && Delimited(x)
    ensures Read(Text(v) + x) == Some((Abs(v), x))
    decreases Size(v), 1
  {
    if v.Arr? {
      ReadItemsText(v.items, true, x);
      ReadBracket(ItemsText(v.items, true), x, AbsItems(v.items));
    } else if v.Obj? {
      SortedSameObject(v.members);
      SortedGood(v.members);
      ReadMembersText(Sorted(v.members), true, x);
      ReadBrace(MembersText(Sorted(v.members), true), x, AbsMembers(Sorted(v.members)));
    } else {
      ReadScalar(v, x);
    }
  }

  lemma ReadBracket(body: string, x: string, items: seq<Value>)
    requires ReadItems(body + x, true) == Some((items, x))
    ensures Read("[" + body + x) == Some((VArr(items), x))
  {
    assert ("[" + body + x)[1..] == body + x;
  }

  lemma ReadBrace(body: string, x: string, members: map<string, Value>)
    requires ReadMembers(body + x, true) == Some((members, x))
    ensures Read("{" + body + x) == Some((VObj(members), x))
  {
    assert ("{" + body + x)[1..] == body + x;
  }

  lemma SortedGood(ms: seq<Member>)
    requires GoodMembers(ms)
    ensures GoodMembers(Sorted(ms))
  {
    forall i | 0 <= i < |Sorted(ms)|
      ensures IntegersOnly(Sorted(ms)[i].value) && DistinctKeys(Sorted(ms)[i].value)
    {
      InSorted(ms, Sorted(ms)[i]);
    }
  }

  /** One turn of the item reader. */
  lemma ItemRead(t: string, first: bool, start: string, value: Value, rest: string, more: seq<Value>, end: string)
    requires t != [] && t[0] != ']' && Separated(t, first) == Some(start)
    requires Read(start) == Some((value, rest)) && ReadItems(rest, false) == Some((more, end))
    ensures ReadItems(t, first) == Some(([value] + more, end))
  {
  }

  /** One turn of the member reader. */
  lemma MemberRead(t: string, first: bool, start: string, key: string, text: string, value: Value, rest: string,
                   more: map<string, Value>, end: string)
    requires t != [] && t[0] != '}' && Separated(t, first) == Some(start)
    requires start != [] && start[0] == '\"' && ReadString(start[1..]) == Some((key, ":" + text))
    requires Read(text) == Some((value, rest)) && ReadMembers(rest, false) == Some((more, end))
    ensures ReadMembers(t, first) == Some((more[key := value], end))
  {
    assert (":" + text)[1..] == text;
  }

  /** An element behind its separator, and what the reader sees of it. */
  lemma BehindSeparator(first: bool, head: string, tail: string, x: string)
    requires head != []
    ensures
      var t := (if first then "" else ",") + head + tail + x;
      t != [] && t[0] == (if first then head[0] else ',') && Separated(t, first) == Some(head + (tail + x))
  {
    var t := (if first then "" else ",") + head + tail + x;
    var start := head + (tail + x);
    assert t == (if first then start else "," + start);
    assert first || t[1..] == start;
  }

  lemma BehindMemberSeparator(first: bool, key: string, value: string, tail: string, x: string)
    requires key != []
    ensures
      var t := (if first then "" else ",") + key + ":" + value + tail + x;
      && t != [] && t[0] == (if first then key[0] else ',')
      && Separated(t, first) == Some(key + (":" + (value + (tail + x))))
  {
    var head := key + ":" + value;
    BehindSeparator(first, head, tail, x);
    assert (if first then "" else ",") + key + ":" + value + tail + x == (if first then "" else ",") + head + tail + x;
    assert head + (tail + x) == key + (":" + (value + (tail + x)));
  }

  lemma ItemsTail(items: seq<Json>, x: string)
    requires GoodItems(items)
    ensures Delimited(ItemsText(items, false) + x)
  {
  }

  lemma MembersTail(ms: seq<Member>, x: string)
    requires GoodMembers(ms)
    ensures Delimited(MembersText(ms, false) + x)
  {
  }

  lemma {:induction false} ReadItemsText(items: seq<Json>, first: bool, x: string)
    requires Delimited(x) && GoodItems(items)
    ensures ReadItems(ItemsText(items, first) + x, first) == Some((AbsItems(items), x))
    decreases SizeItems(items), 0
  {
    var t := ItemsText(items, first) + x;
    if items == [] {
      assert t[1..] == x;
    } else {
      var rest := ItemsText(items[1..], false) + x;
      var start := Text(items[0]) + rest;
      TextStarts(items[0]);
      BehindSeparator(first, Text(items[0]), ItemsText(items[1..], false), x);
      ItemsTail(items[1..], x);
      ReadText(items[0], rest);
      ReadItemsText(items[1..], false, x);
      ItemRead(t, first, start, Abs(items[0]), rest, AbsItems(items[1..]), x);
    }
  }

  lemma {:induction false} ReadMembersText(ms: seq<Member>, first: bool, x: string)
    requires Delimited(x) && GoodMembers(ms)
    ensures ReadMembers(MembersText(ms, first) + x, first) == Some((AbsMembers(ms), x))
    decreases SizeMembers(ms), 0
  {
    var t := MembersText(ms, first) + x;
    if ms == [] {
      assert t[1..] == x;
    } else {
      var rest := MembersText(ms[1..], false) + x;
      var value := Text(ms[0].value) + rest;
      BehindMemberSeparator(first, Literal(ms[0].key), Text(ms[0].value), MembersText(ms[1..], false), x);
      MembersTail(ms[1..], x);
      ReadLiteral(ms[0].key, ":" + value);
      ReadText(ms[0].value, rest);
      ReadMembersText(ms[1..], false, x);
      MemberRead(t, first, Literal(ms[0].key) + (":" + value), ms[0].key, value, Abs(ms[0].value), rest,
                 AbsMembers(ms[1..]), x);
    }
  }

  lemma DecodeText(v: Json)
    requires Canonicalizable(v)
    ensures Decode(Text(v)) == Some(Abs(v))
  {
    ReadText(v, []);
    assert Text(v) + [] == Text(v);
  }

  // ---- Order does not matter ----

  lemma {:induction false} SameText(a: Json, b: Json)
    requires Canonicalizable(a) && Canonicalizable(b) && Abs(a) == Abs(b)
    ensures Text(a) == Text(b)
    decreases Size(a), 1
  {
    match a
    case Arr(items) => SameItems(items, b.items, true);
    case Obj(ms) =>
      SortedSameObject(ms);
      SortedSameObject(b.members);
      SortedGood(ms);
      SortedGood(b.members);
      SortedIsStrict(ms);
      SortedIsStrict(b.members);
      SameMembers(Sorted(ms), Sorted(b.members), true);
    case _ =>
  }

  lemma {:induction false} SameItems(a: seq<Json>, b: seq<Json>, first: bool)
    requires GoodItems(a) && GoodItems(b)
    requires AbsItems(a) == AbsItems(b)
    ensures ItemsText(a, first) == ItemsText(b, first)
    decreases SizeItems(a), 0
  {
    assert |a| == |AbsItems(a)| == |b|;
    if a != [] {
      assert AbsItems(a)[0] == AbsItems(b)[0] && AbsItems(a)[1..] == AbsItems(b)[1..];
      SameText(a[0], b[0]);
      SameItems(a[1..], b[1..], false);
    }
  }

  lemma FirstKey(ms: seq<Member>, k: string)
    requires StrictlySorted(ms) && Ints(ms) && k in AbsMembers(ms)
    ensures ms != [] && (k == ms[0].key || Lex.Less(ms[0].key, k))
  {
    AbsMembersKeys(ms, k);
  }

  lemma DropFirst(ms: seq<Member>)
    requires StrictlySorted(ms) && Ints(ms) && ms != []
    ensures AbsMembers(ms[1..]) == AbsMembers(ms) - {ms[0].key}
  {
    StrictIsDistinct(ms);
    AbsMembersKeys(ms[1..], ms[0].key);
  }

  lemma {:induction false} SameMembers(a: seq<Member>, b: seq<Member>, first: bool)
    requires StrictlySorted(a) && StrictlySorted(b)
    requires GoodMembers(a) && GoodMembers(b)
    requires AbsMembers(a) == AbsMembers(b)
    ensures MembersText(a, first) == MembersText(b, first)
    decreases SizeMembers(a), 0
  {
    assert b != [] ==> b[0].key in AbsMembers(b);
    if a != [] {
      FirstKey(b, a[0].key);
      FirstKey(a, b[0].key);
      if Lex.Less(a[0].key, b[0].key) {
        Lex.Asymmetric(a[0].key, b[0].key);
      }
      assert a[0].key == b[0].key;
      assert Abs(a[0].value) == AbsMembers(a)[a[0].key] == Abs(b[0].value);
      SameText(a[0].value, b[0].value);
      DropFirst(a);
      DropFirst(b);
      SameMembers(a[1..], b[1..], false);
    }
  }

  /** Main result: two values have the same canonical text exactly when they are
      equal up to the order of object members. */
  lemma SameTextExactlyWhenSame(a: Json, b: Json)
    requires Canonicalizable(a) && Canonicalizable(b)
    ensures Text(a) == Text(b) <==> Abs(a) == Abs(b)
  {
    DecodeText(a);
    DecodeText(b);
    if Abs(a) == Abs(b) {
      SameText(a, b);
    }
  }
}
