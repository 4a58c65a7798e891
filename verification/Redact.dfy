/** Keeping the relay token out of the git errors that are shown: whatever stands
    between `x-access-token:` and the next `@` becomes `***`. */
module Redact {
  import opened Prelude
  import opened Substring

  type Bytes = seq<byte>

  const AT: byte := 64
  const STARS: Bytes := [42, 42, 42]

  /** `x-access-token:`. */
  const MARK: Bytes := [120, 45, 97, 99, 99, 101, 115, 115, 45, 116, 111, 107, 101, 110, 58]

  /** What the proofs use of the mark: its last byte stands nowhere else in it,
      and no `*` or `@` does. */
  predicate IsMark(mark: Bytes) {
    && mark != [] && AT !in mark && 42 !in mark
    && forall i :: 0 <= i < |mark| - 1 ==> mark[i] != mark[|mark| - 1]
  }

  lemma TheMark()
    ensures IsMark(MARK)
    ensures
      var name := "x-access-token:";
      |MARK| == |name| && forall i :: 0 <= i < |name| ==> MARK[i] as char == name[i]
  {
  }

  /** How a text starts: with no mark at all, with one that no `@` follows, or
      with one that ends before `after` and an `@` that comes `at` bytes later. */
  datatype Span = Plain | Bare(after: nat) | Token(after: nat, at: nat)

  function Look(mark: Bytes, text: Bytes): (r: Span)
    requires mark != []
    ensures r.Bare? ==> 0 < r.after <= |text|
    ensures r.Token? ==> 0 < r.after && r.after + r.at <= |text|
  {
    var start := Find(text, mark);
    if start.None? then Plain
    else
      var after := start.value + |mark|;
      var at := Find(text[after..], [AT]);
      if at.None? then Bare(after) else Token(after, at.value)
  }

  /** The text after redaction. */
  function Redacted(mark: Bytes, text: Bytes): Bytes
    requires mark != []
    decreases |text|
  {
    match Look(mark, text)
    case Plain => text
    case Bare(after) => text[..after] + Redacted(mark, text[after..])
    case Token(after, at) => text[..after] + STARS + Redacted(mark, text[after + at..])
  }

  method RedactText(text: Bytes) returns (out: Bytes)
    ensures out == Redacted(MARK, text)
  {
    out := RedactMarked(MARK, text);
  }

  method RedactMarked(mark: Bytes, text: Bytes) returns (out: Bytes)
    requires mark != []
    ensures out == Redacted(mark, text)
  {
    out := [];
    var rest := text;
    while true
      invariant out + Redacted(mark, rest) == Redacted(mark, text)
      decreases |rest|
    {
      var start := Find(rest, mark);
      if start.None? {
        break;
      }
      out, rest := RedactOne(mark, out, rest, start.value);
    }
    out := out + rest;
  }

  /** One turn of the loop. */
  method RedactOne(mark: Bytes, out: Bytes, rest: Bytes, start: nat) returns (out': Bytes, rest': Bytes)
    requires mark != [] && Find(rest, mark) == Some(start)
    ensures out' + Redacted(mark, rest') == out + Redacted(mark, rest) && |rest'| < |rest|
  {
    var after := start + |mark|;
    out' := out + rest[..after];
    var tail := rest[after..];
    var at := Find(tail, [AT]);
    if at.Some? {
      assert Look(mark, rest) == Token(after, at.value);
      ResumeAtToken(mark, out, rest, after, at.value);
      out' := out' + STARS;
      rest' := tail[at.value..];
    } else {
      assert Look(mark, rest) == Bare(after);
      ResumeBare(mark, out, rest, after);
      rest' := tail;
    }
  }

  lemma ResumeAtToken(mark: Bytes, out: Bytes, rest: Bytes, after: nat, at: nat)
    requires mark != [] && Look(mark, rest) == Token(after, at)
    ensures out + Redacted(mark, rest) == out + rest[..after] + STARS + Redacted(mark, rest[after..][at..])
  {
    var head, shown := rest[..after], Redacted(mark, rest[after + at..]);
    RedactedToken(mark, rest, after, at);
    DropTwice(rest, after, at);
    Append3(out, head, STARS, shown);
  }

  lemma DropTwice(s: Bytes, a: nat, b: nat)
    requires a + b <= |s|
    ensures s[a..][b..] == s[a + b..]
  {
  }

  lemma ResumeBare(mark: Bytes, out: Bytes, rest: Bytes, after: nat)
    requires mark != [] && Look(mark, rest) == Bare(after)
    ensures out + Redacted(mark, rest) == out + rest[..after] + Redacted(mark, rest[after..])
  {
    Append2(out, rest[..after], Redacted(mark, rest[after..]));
  }

  lemma Append2(a: Bytes, b: Bytes, c: Bytes)
    ensures a + (b + c) == a + b + c
  {
  }

  lemma Append3(a: Bytes, b: Bytes, c: Bytes, d: Bytes)
    ensures a + (b + c + d) == a + b + c + d
  {
  }

  // ---- What is left in the text ----

  predicate Hidden(text: Bytes) {
    |text| >= 4 && text[0] == 42 && text[1] == 42 && text[2] == 42 && text[3] == AT
  }

  predicate CleanAt(mark: Bytes, text: Bytes, i: nat) {
    Occurs(mark, text, i) && AT in text[i + |mark|..] ==> Hidden(text[i + |mark|..])
  }

  /** Every mark with an `@` anywhere after it is followed by `***@`. */
  predicate Clean(mark: Bytes, text: Bytes) {
    forall i: nat :: i <= |text| ==> CleanAt(mark, text, i)
  }

  lemma OccursByte(needle: Bytes, text: Bytes, i: nat, k: nat)
    requires Occurs(needle, text, i) && k < |needle|
    ensures i + k < |text| && text[i + k] == needle[k]
  {
    assert text[i..][k] == needle[k];
  }

  lemma OccursHere(needle: Bytes, text: Bytes, i: nat)
    requires i + |needle| <= |text| && forall k :: 0 <= k < |needle| ==> text[i + k] == needle[k]
    ensures Occurs(needle, text, i)
  {
    assert text[i..][..|needle|] == needle;
  }

  lemma FoundAt(text: Bytes)
    ensures Find(text, [AT]).Some? <==> AT in text
    ensures Find(text, [AT]).Some? ==> text[Find(text, [AT]).value] == AT && AT !in text[..Find(text, [AT]).value]
  {
    var at := Find(text, [AT]);
    if at.Some? {
      OccursByte([AT], text, at.value, 0);
    }
    forall i: nat | i < |text| && text[i] == AT
      ensures at.Some? && at.value <= i
    {
      OccursHere([AT], text, i);
    }
  }

  lemma {:induction false} NothingToHide(mark: Bytes, text: Bytes)
    requires mark != [] && AT !in text
    ensures Redacted(mark, text) == text
    decreases |text|
  {
    if Find(text, mark).Some? {
      var after := Find(text, mark).value + |mark|;
      FoundAt(text[after..]);
      NothingToHide(mark, text[after..]);
    }
  }

  lemma KeepsFirst(mark: Bytes, text: Bytes)
    requires mark != [] && text != []
    ensures Redacted(mark, text) != [] && Redacted(mark, text)[0] == text[0]
  {
  }

  lemma SharedByte(mark: Bytes, text: Bytes, s: nat, i: nat)
    requires Occurs(mark, text, s) && Occurs(mark, text, i) && s < i < s + |mark|
    ensures mark[s + |mark| - 1 - i] == mark[|mark| - 1]
  {
    OccursByte(mark, text, s, |mark| - 1);
    OccursByte(mark, text, i, s + |mark| - 1 - i);
  }

  /** A mark that starts inside another cannot reach past it. */
  lemma NoStraddle(mark: Bytes, text: Bytes, s: nat, i: nat)
    requires IsMark(mark) && Occurs(mark, text, s) && Occurs(mark, text, i) && s < i
    ensures i >= s + |mark|
  {
    if i < s + |mark| {
      SharedByte(mark, text, s, i);
    }
  }

  lemma ShiftOccurs(mark: Bytes, front: Bytes, text: Bytes, i: nat)
    requires i >= |front|
    ensures Occurs(mark, front + text, i) <==> Occurs(mark, text, i - |front|)
  {
    if i <= |front + text| {
      assert (front + text)[i..] == text[i - |front|..];
    }
  }

  lemma ShiftClean(mark: Bytes, front: Bytes, text: Bytes, i: nat)
    requires i >= |front|
    ensures CleanAt(mark, front + text, i) <==> CleanAt(mark, text, i - |front|)
  {
    ShiftOccurs(mark, front, text, i);
    if Occurs(mark, text, i - |front|) {
      assert (front + text)[i + |mark|..] == text[i - |front| + |mark|..];
    }
  }

  /** The text ends in the mark, which stands nowhere else in it. */
  ghost predicate EndsIn(mark: Bytes, head: Bytes) {
    && |mark| <= |head| && Occurs(mark, head, |head| - |mark|)
    && forall i: nat :: Occurs(mark, head, i) ==> i == |head| - |mark|
  }

  lemma OccursWithin(mark: Bytes, text: Bytes, more: Bytes, i: nat)
    requires i + |mark| <= |text|
    ensures Occurs(mark, text + more, i) <==> Occurs(mark, text, i)
  {
    assert (text + more)[i..][..|mark|] == text[i..][..|mark|];
  }

  /** Up to its end the mark is the only one, whatever follows. */
  lemma OnlyFirst(mark: Bytes, head: Bytes, more: Bytes, i: nat)
    requires IsMark(mark) && EndsIn(mark, head) && i < |head| && Occurs(mark, head + more, i)
    ensures i == |head| - |mark|
  {
    var s := |head| - |mark|;
    OccursWithin(mark, head, more, s);
    if s < i {
      NoStraddle(mark, head + more, s, i);
    } else {
      OccursWithin(mark, head, more, i);
    }
  }

  lemma HeadEnds(mark: Bytes, text: Bytes)
    requires mark != [] && Find(text, mark).Some?
    ensures EndsIn(mark, text[..Find(text, mark).value + |mark|])
  {
    var s := Find(text, mark).value;
    var head, tail := text[..s + |mark|], text[s + |mark|..];
    assert text == head + tail;
    OccursWithin(mark, head, tail, s);
    forall i: nat | Occurs(mark, head, i)
      ensures i == s
    {
      OccursWithin(mark, head, tail, i);
    }
  }

  /** The text and its redaction, cut at the first token. */
  lemma FirstToken(mark: Bytes, text: Bytes) returns (head: Bytes, hidden: Bytes, rest: Bytes)
    requires mark != [] && Exposed(mark, text)
    ensures text == head + hidden + rest && EndsIn(mark, head)
    ensures AT !in hidden && rest != [] && rest[0] == AT && |rest| < |text|
    ensures Redacted(mark, text) == head + STARS + Redacted(mark, rest)
  {
    var after, at := FindToken(mark, text);
    head, hidden, rest := text[..after], text[after..][..at], text[after + at..];
    Cut(text, after, at);
    RedactedToken(mark, text, after, at);
  }

  lemma FindToken(mark: Bytes, text: Bytes) returns (after: nat, at: nat)
    requires mark != [] && Exposed(mark, text)
    ensures Look(mark, text) == Token(after, at) && after + at < |text|
    ensures text[after + at] == AT && AT !in text[after..][..at] && EndsIn(mark, text[..after])
  {
    after := Find(text, mark).value + |mark|;
    var tail := text[after..];
    FoundAt(tail);
    at := Find(tail, [AT]).value;
    assert tail[at] == text[after + at];
    HeadEnds(mark, text);
  }

  lemma RedactedToken(mark: Bytes, text: Bytes, after: nat, at: nat)
    requires mark != [] && Look(mark, text) == Token(after, at)
    ensures Redacted(mark, text) == text[..after] + STARS + Redacted(mark, text[after + at..])
  {
  }

  lemma Cut(text: Bytes, a: nat, b: nat)
    requires a + b <= |text|
    ensures text == text[..a] + text[a..][..b] + text[a + b..]
  {
  }

  /** An `@` follows the first mark. */
  predicate Exposed(mark: Bytes, text: Bytes) {
    Find(text, mark).Some? && AT in text[Find(text, mark).value + |mark|..]
  }

  lemma FirstByte(mark: Bytes, text: Bytes, i: nat)
    requires mark != [] && i < |text|
    ensures Occurs(mark, text, i) ==> text[i] == mark[0]
  {
    if Occurs(mark, text, i) {
      OccursByte(mark, text, i, 0);
    }
  }

  lemma NoStar(mark: Bytes, text: Bytes, i: nat)
    requires IsMark(mark) && i < |text| && text[i] == 42
    ensures !Occurs(mark, text, i)
  {
    FirstByte(mark, text, i);
  }

  /** A mark, then stars and clean text that starts with `@`. */
  lemma CleanAfterStars(mark: Bytes, head: Bytes, more: Bytes, i: nat)
    requires IsMark(mark) && EndsIn(mark, head) && Clean(mark, more) && more != [] && more[0] == AT
    requires i <= |head| + 3 + |more|
    ensures CleanAt(mark, head + STARS + more, i)
  {
    var out := head + STARS + more;
    if i >= |head| + 3 {
      ShiftClean(mark, head + STARS, more, i);
      assert CleanAt(mark, more, i - (|head| + 3));
    } else if i >= |head| {
      NoStar(mark, out, i);
    } else if Occurs(mark, out, i) {
      assert out == head + (STARS + more);
      OnlyFirst(mark, head, STARS + more, i);
      assert out[i + |mark|..] == STARS + more;
    }
  }

  lemma CleanWithoutAt(mark: Bytes, text: Bytes, i: nat)
    requires IsMark(mark) && i <= |text| && !Exposed(mark, text)
    ensures CleanAt(mark, text, i)
  {
    if Occurs(mark, text, i) {
      var after := Find(text, mark).value + |mark|;
      assert text[i + |mark|..] == text[after..][i + |mark| - after..];
    }
  }

  /** Main result: in what is shown, every mark with an `@` anywhere after it is
      followed at once by `***@`. */
  lemma {:induction false} ShowsNoToken(mark: Bytes, text: Bytes)
    requires IsMark(mark)
    ensures Clean(mark, Redacted(mark, text))
    decreases |text|
  {
    if Exposed(mark, text) {
      var head, hidden, rest := FirstToken(mark, text);
      ShowsNoToken(mark, rest);
      KeepsFirst(mark, rest);
      StarredIsClean(mark, head, Redacted(mark, rest));
    } else {
      Untouched(mark, text);
      forall i: nat | i <= |text|
        ensures CleanAt(mark, text, i)
      {
        CleanWithoutAt(mark, text, i);
      }
    }
  }

  lemma StarredIsClean(mark: Bytes, head: Bytes, more: Bytes)
    requires IsMark(mark) && EndsIn(mark, head) && Clean(mark, more) && more != [] && more[0] == AT
    ensures Clean(mark, head + STARS + more)
  {
    forall i: nat | i <= |head + STARS + more|
      ensures CleanAt(mark, head + STARS + more, i)
    {
      CleanAfterStars(mark, head, more, i);
    }
  }

  lemma Untouched(mark: Bytes, text: Bytes)
    requires mark != [] && !Exposed(mark, text)
    ensures Redacted(mark, text) == text
  {
    if Find(text, mark).Some? {
      var after := Find(text, mark).value + |mark|;
      FoundAt(text[after..]);
      NothingToHide(mark, text[after..]);
    }
  }

  /** Clean text after a mark hides just three stars. */
  lemma HidesStars(mark: Bytes, head: Bytes, hidden: Bytes, rest: Bytes)
    requires EndsIn(mark, head) && AT !in hidden && rest != [] && rest[0] == AT && Clean(mark, head + hidden + rest)
    ensures hidden == STARS
  {
    var text, i := head + hidden + rest, |head| - |mark|;
    assert text == head + (hidden + rest);
    OccursWithin(mark, head, hidden + rest, i);
    assert CleanAt(mark, text, i);
    assert text[i + |mark|..] == hidden + rest;
    assert (hidden + rest)[|hidden|] == AT;
  }

  /** Main result: text in which no token could show is left as it is. */
  lemma {:induction false} LeavesCleanTextAlone(mark: Bytes, text: Bytes)
    requires IsMark(mark) && Clean(mark, text)
    ensures Redacted(mark, text) == text
    decreases |text|
  {
    if Exposed(mark, text) {
      var head, hidden, rest := FirstToken(mark, text);
      HidesStars(mark, head, hidden, rest);
      CleanSuffix(mark, head + hidden, rest);
      LeavesCleanTextAlone(mark, rest);
    } else {
      Untouched(mark, text);
    }
  }

  lemma CleanSuffix(mark: Bytes, front: Bytes, text: Bytes)
    requires Clean(mark, front + text)
    ensures Clean(mark, text)
  {
    forall i: nat | i <= |text|
      ensures CleanAt(mark, text, i)
    {
      assert CleanAt(mark, front + text, |front| + i);
      ShiftClean(mark, front, text, |front| + i);
    }
  }

  /** So redaction changes a text exactly when a token could show in it, and doing
      it twice is doing it once. */
  lemma ChangesExactlyWhenUnclean(text: Bytes)
    ensures Redacted(MARK, text) == text <==> Clean(MARK, text)
    ensures Redacted(MARK, Redacted(MARK, text)) == Redacted(MARK, text)
  {
    TheMark();
    ShowsNoToken(MARK, text);
    LeavesCleanTextAlone(MARK, Redacted(MARK, text));
    if Clean(MARK, text) {
      LeavesCleanTextAlone(MARK, text);
    }
  }

  // ---- What is kept of the text ----

  /** Pieces kept, with what stood or stands between them. */
  function Woven(kept: seq<Bytes>, between: seq<Bytes>): Bytes
    requires |kept| == |between| + 1
  {
    if between == [] then kept[0] else kept[0] + between[0] + Woven(kept[1..], between[1..])
  }

  function AllStars(n: nat): (r: seq<Bytes>)
    ensures |r| == n
  {
    seq(n, _ => STARS)
  }

  /** Each gap held no `@`; it stands between a mark and an `@`. */
  predicate Gaps(mark: Bytes, kept: seq<Bytes>, hidden: seq<Bytes>) {
    && |kept| == |hidden| + 1
    && (forall i :: 0 <= i < |hidden| ==> AT !in hidden[i])
    && (forall i :: 0 <= i < |hidden| ==> |mark| <= |kept[i]| && kept[i][|kept[i]| - |mark|..] == mark)
    && (forall i :: 1 <= i < |kept| ==> kept[i] != [] && kept[i][0] == AT)
  }

  /** One gap more in front. */
  lemma GapBefore(mark: Bytes, head: Bytes, gap: Bytes, kept: seq<Bytes>, hidden: seq<Bytes>)
    requires Gaps(mark, kept, hidden) && AT !in gap && kept[0] != [] && kept[0][0] == AT
    requires EndsIn(mark, head)
    ensures Gaps(mark, [head] + kept, [gap] + hidden)
  {
  }

  /** `text` and `out` are the kept pieces, around what was hidden and around stars. */
  predicate Splits(mark: Bytes, text: Bytes, out: Bytes, kept: seq<Bytes>, hidden: seq<Bytes>) {
    && Gaps(mark, kept, hidden)
    && text == Woven(kept, hidden) && out == Woven(kept, AllStars(|hidden|))
    && (text != [] ==> kept[0] != [] && kept[0][0] == text[0])
  }

  lemma SplitsBefore(mark: Bytes, head: Bytes, gap: Bytes, rest: Bytes, out: Bytes, kept: seq<Bytes>,
                     hidden: seq<Bytes>)
    requires Splits(mark, rest, out, kept, hidden) && rest != [] && rest[0] == AT && AT !in gap
    requires mark != [] && EndsIn(mark, head)
    ensures Splits(mark, head + gap + rest, head + STARS + out, [head] + kept, [gap] + hidden)
  {
    GapBefore(mark, head, gap, kept, hidden);
    Weave(head, gap, kept, hidden);
    Weave(head, STARS, kept, AllStars(|hidden|));
    assert [STARS] + AllStars(|hidden|) == AllStars(|hidden| + 1);
  }

  /** Main result: what is shown is the text itself, with stars for nothing but
      runs between a mark and the next `@`. */
  lemma {:induction false} KeepsTheRest(mark: Bytes, text: Bytes) returns (kept: seq<Bytes>, hidden: seq<Bytes>)
    requires mark != []
    ensures Splits(mark, text, Redacted(mark, text), kept, hidden)
    decreases |text|
  {
    if Exposed(mark, text) {
      var head, gap, rest := FirstToken(mark, text);
      kept, hidden := KeepsTheRest(mark, rest);
      SplitsBefore(mark, head, gap, rest, Redacted(mark, rest), kept, hidden);
      kept, hidden := [head] + kept, [gap] + hidden;
    } else {
      Untouched(mark, text);
      kept, hidden := [text], [];
    }
  }

  lemma Weave(first: Bytes, gap: Bytes, kept: seq<Bytes>, between: seq<Bytes>)
    requires |kept| == |between| + 1
    ensures Woven([first] + kept, [gap] + between) == first + gap + Woven(kept, between)
  {
    assert ([first] + kept)[1..] == kept && ([gap] + between)[1..] == between;
  }
}
