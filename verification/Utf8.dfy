/** Rust strings as sequences of characters, each the bytes that encode it: an
    ASCII byte, or a lead byte and up to three continuation bytes. */
module Utf8 {
  import opened Prelude

  predicate Continues(b: byte) {
    128 <= b < 192
  }

  predicate IsRune(r: seq<byte>) {
    1 <= |r| <= 4 && !Continues(r[0]) && (|r| == 1 <==> r[0] < 128) && forall i :: 1 <= i < |r| ==> Continues(r[i])
  }

  type Rune = r: seq<byte> | IsRune(r) witness [63]

  type Text = seq<Rune>

  function Encode(text: Text): seq<byte> {
    if text == [] then [] else text[0] + Encode(text[1..])
  }

  function Ascii(s: string): (t: Text)
    ensures |t| == |s|
  {
    seq(|s|, i requires 0 <= i < |s| => if s[i] < 128 as char then [s[i] as byte] else [63])
  }

  /** `char::is_control`: U+0000 to U+001F and U+007F to U+009F. */
  predicate IsControl(r: Rune) {
    || (|r| == 1 && (r[0] < 32 || r[0] == 127))
    || (|r| == 2 && r[0] == 194 && r[1] < 160)
  }

  /** Continuation bytes are those whose two upper bits are `10`. */
  lemma ContinuesExactly(b: byte)
    ensures Continues(b) <==> b / 64 == 2
  {
  }

  /** The code point a character encodes (section 3 of RFC 3629). */
  function Scalar(r: Rune): int {
    match |r|
    case 1 => r[0] as int
    case 2 => (r[0] as int - 192) * 64 + (r[1] as int - 128)
    case 3 => (r[0] as int - 224) * 4096 + (r[1] as int - 128) * 64 + (r[2] as int - 128)
    case _ => (r[0] as int - 240) * 262144 + (r[1] as int - 128) * 4096 + (r[2] as int - 128) * 64 + (r[3] as int - 128)
  }

  /** The lead byte fits the length, and no shorter form would do. */
  predicate IsShortest(r: Rune) {
    && (|r| == 2 ==> 192 <= r[0] < 224 && Scalar(r) >= 128)
    && (|r| == 3 ==> 224 <= r[0] < 240 && Scalar(r) >= 2048)
    && (|r| == 4 ==> 240 <= r[0] < 248 && Scalar(r) >= 65536)
  }

  /** Main result: a control character is one below U+0020 or from U+007F to U+009F. */
  lemma ControlExactly(r: Rune)
    requires IsShortest(r)
    ensures IsControl(r) <==> Scalar(r) < 32 || 127 <= Scalar(r) < 160
  {
  }

  function Printable(text: Text): (r: Text)
    ensures forall c :: c in r ==> !IsControl(c)
    ensures (forall c :: c in text ==> !IsControl(c)) ==> r == text
  {
    if text == [] then []
    else if IsControl(text[0]) then Printable(text[1..])
    else [text[0]] + Printable(text[1..])
  }

  /** The printable characters of a message, at most 4000 of them. */
  function Clean(text: Text): (r: Text)
    ensures r <= Printable(text) && |r| == Min(|Printable(text)|, 4000)
    ensures |text| <= 4000 && (forall c :: c in text ==> !IsControl(c)) ==> r == text
  {
    var kept := Printable(text);
    if |kept| <= 4000 then kept else kept[..4000]
  }

  /** Every character is kept in its place or, when it is a control character,
      left out, whatever stands around it. */
  lemma {:induction false} KeepsInPlace(before: Text, c: Rune, after: Text)
    ensures Printable(before + [c] + after) ==
            Printable(before) + (if IsControl(c) then [] else [c]) + Printable(after)
  {
    var text := before + [c] + after;
    if before == [] {
      assert text[1..] == after;
    } else {
      assert text[1..] == before[1..] + [c] + after;
      KeepsInPlace(before[1..], c, after);
    }
  }

  lemma {:induction false} EncodeLength(text: Text)
    ensures |text| <= |Encode(text)| <= 4 * |text|
  {
    if text != [] {
      EncodeLength(text[1..]);
    }
  }

  lemma {:induction false} EncodeAppend(a: Text, b: Text)
    ensures Encode(a + b) == Encode(a) + Encode(b)
  {
    if a == [] {
      assert a + b == b;
    } else {
      assert (a + b)[1..] == a[1..] + b;
      EncodeAppend(a[1..], b);
    }
  }

  /** A cleaned message holds no line feed. */
  lemma {:induction false} NoNewline(text: Text)
    requires forall c :: c in text ==> !IsControl(c)
    ensures 10 !in Encode(text)
  {
    if text != [] {
      NoNewline(text[1..]);
      assert text[0] in text;
    }
  }

  // ---- Cutting a string at a character ----

  /** `str::is_char_boundary`. */
  predicate Boundary(s: seq<byte>, i: nat)
    requires i <= |s|
  {
    i == 0 || i == |s| || !Continues(s[i])
  }

  /** The longest run of whole characters within `budget` bytes. */
  function Fit(text: Text, budget: nat): (r: Text) {
    if text == [] || |text[0]| > budget then [] else [text[0]] + Fit(text[1..], budget - |text[0]|)
  }

  /** Nothing between a cut and the end of the character it falls in is a boundary. */
  lemma {:induction false} NoBoundaryBetween(text: Text, budget: nat, i: nat)
    requires |Encode(Fit(text, budget))| < i <= budget && i <= |Encode(text)|
    ensures !Boundary(Encode(text), i)
  {
    EncodeFit(text, budget);
    if text != [] && |text[0]| <= budget {
      NoBoundaryBetween(text[1..], budget - |text[0]|, i - |text[0]|);
      assert |Encode(Fit(text, budget))| == |text[0]| + |Encode(Fit(text[1..], budget - |text[0]|))|;
    }
  }

  lemma {:induction false} EncodeFit(text: Text, budget: nat)
    ensures Fit(text, budget) <= text && Encode(Fit(text, budget)) <= Encode(text)
    ensures |Encode(Fit(text, budget))| <= budget
    ensures Boundary(Encode(text), |Encode(Fit(text, budget))|)
  {
    if text != [] && |text[0]| <= budget {
      var rest := Fit(text[1..], budget - |text[0]|);
      EncodeFit(text[1..], budget - |text[0]|);
      assert ([text[0]] + rest)[1..] == rest;
    }
  }

  /** No longer run of whole characters would fit. */
  lemma {:induction false} FitIsLongest(text: Text, budget: nat, k: nat)
    requires k <= |text| && |Encode(text[..k])| <= budget
    ensures k <= |Fit(text, budget)|
  {
    if k > 0 {
      assert text[..k][1..] == text[1..][..k - 1];
      FitIsLongest(text[1..], budget - |text[0]|, k - 1);
    }
  }

  /** Walk back from the budget to a character boundary. */
  method Truncate(s: seq<byte>, budget: nat, ghost text: Text) returns (end: nat)
    requires s == Encode(text)
    ensures end <= |s| && s[..end] == Encode(Fit(text, budget))
  {
    end := Min(|s|, budget);
    EncodeFit(text, budget);
    while !Boundary(s, end)
      invariant |Encode(Fit(text, budget))| <= end <= |s| && end <= budget
      decreases end
    {
      end := end - 1;
    }
    if |Encode(Fit(text, budget))| < end {
      NoBoundaryBetween(text, budget, end);
    }
  }
}
