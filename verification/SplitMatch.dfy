/** The tag-filter matcher of the GitHub mirror: split the pattern at its stars,
    anchor the first piece, then take each middle piece at its leftmost place.

    It decides the wildcard relation for every pattern and text, so the two
    matchers of the forge agree wherever the branch-filter loop is complete. */
module SplitMatch {
  import opened Prelude
  import opened Substring
  import opened Wildcard
  import StarLoop

  /** `str::split('*')`: the star-free pieces between the stars. */
  function Split(p: seq<byte>): (parts: seq<seq<byte>>)
    ensures |parts| >= 1
    ensures forall i :: 0 <= i < |parts| ==> STAR !in parts[i]
    ensures p == Joined(parts)
  {
    if p == [] then [[]]
    else
      var rest := Split(p[1..]);
      if p[0] == STAR then
        assert Joined([[]] + rest) == p by { assert ([[]] + rest)[1..] == rest; }
        [[]] + rest
      else
        assert Joined([[p[0]] + rest[0]] + rest[1..]) == p by {
          assert ([[p[0]] + rest[0]] + rest[1..])[1..] == rest[1..];
        }
        [[p[0]] + rest[0]] + rest[1..]
  }

  /** The pattern whose pieces these are. */
  function Joined(parts: seq<seq<byte>>): seq<byte>
    requires |parts| >= 1
  {
    if |parts| == 1 then parts[0] else parts[0] + [STAR] + Joined(parts[1..])
  }

  method GlobMatch(pattern: seq<byte>, text: seq<byte>) returns (matched: bool)
    ensures matched <==> Matches(pattern, text)
  {
    var parts := Split(pattern);
    var first, tail := parts[0], parts[1..];
    Anchor(parts, text);
    if !(first <= text) {
      return false;
    }
    var rest := text[|first|..];
    if tail == [] {
      return rest == [];
    }
    var last, middle := tail[|tail| - 1], tail[..|tail| - 1];
    for i := 0 to |middle|
      invariant Matches(pattern, text) <==> Matches([STAR] + Joined(tail[i..]), rest)
    {
      var part := middle[i];
      var at := Find(rest, part);
      MiddlePiece(tail[i..], rest, at);
      if at.None? {
        return false;
      }
      assert tail[i..][1..] == tail[i + 1..];
      rest := rest[at.value + |part|..];
    }
    assert tail[|middle|..] == [last];
    Suffix(last, rest);
    matched := |rest| >= |last| && rest[|rest| - |last|..] == last;
  }

  predicate Pieces(parts: seq<seq<byte>>) {
    forall i :: 0 <= i < |parts| ==> STAR !in parts[i]
  }

  lemma Anchor(parts: seq<seq<byte>>, text: seq<byte>)
    requires |parts| >= 1 && Pieces(parts)
    ensures Matches(Joined(parts), text) <==>
      && parts[0] <= text
      && (if |parts| == 1 then text[|parts[0]|..] == []
          else Matches([STAR] + Joined(parts[1..]), text[|parts[0]|..]))
  {
    var rest := if |parts| == 1 then [] else [STAR] + Joined(parts[1..]);
    assert Joined(parts) == parts[0] + rest;
    LiteralPrefix(parts[0], rest, text);
  }

  lemma MiddlePiece(tail: seq<seq<byte>>, text: seq<byte>, at: Option<nat>)
    requires |tail| >= 2 && Pieces(tail) && Leftmost(text, tail[0], at)
    ensures Matches([STAR] + Joined(tail), text) <==>
      at.Some? && Matches([STAR] + Joined(tail[1..]), text[at.value + |tail[0]|..])
  {
    var after := [STAR] + Joined(tail[1..]);
    assert Joined(tail) == tail[0] + after;
    if Matches([STAR] + (tail[0] + after), text) {
      MoveLeft(tail[0], after, text, at);
    }
    if at.Some? && Matches(after, text[at.value + |tail[0]|..]) {
      Place(tail[0], after, text, at.value);
    }
  }

  /** Taking a star-free piece at its leftmost place is as good as any other. */
  lemma MoveLeft(part: seq<byte>, after: seq<byte>, text: seq<byte>, at: Option<nat>)
    requires STAR !in part && after != [] && after[0] == STAR && Leftmost(text, part, at)
    requires Matches([STAR] + (part + after), text)
    ensures at.Some? && Matches(after, text[at.value + |part|..])
  {
    StarCoversAnyRun(part + after, text);
    var k :| 0 <= k <= |text| && Matches(part + after, text[k..]);
    PlaceAt(part, after, text, k);
    assert Occurs(part, text, k);
    var rest := text[at.value + |part|..];
    assert text[k + |part|..] == rest[k - at.value..];
    StarSwallows(after, rest, k - at.value);
  }

  lemma Place(part: seq<byte>, after: seq<byte>, text: seq<byte>, at: nat)
    requires STAR !in part && at <= |text| && part <= text[at..]
    requires Matches(after, text[at + |part|..])
    ensures Matches([STAR] + (part + after), text)
  {
    PlaceAt(part, after, text, at);
    StarCoversAnyRun(part + after, text);
  }

  lemma PlaceAt(part: seq<byte>, after: seq<byte>, text: seq<byte>, k: nat)
    requires STAR !in part && k <= |text|
    ensures Matches(part + after, text[k..]) <==>
      part <= text[k..] && Matches(after, text[k + |part|..])
  {
    LiteralPrefix(part, after, text[k..]);
    if part <= text[k..] {
      assert text[k..][|part|..] == text[k + |part|..];
    }
  }

  lemma Whole(part: seq<byte>, text: seq<byte>)
    requires STAR !in part
    ensures Matches(part, text) <==> text == part
  {
    LiteralPrefix(part, [], text);
    assert part + [] == part;
    if part <= text {
      assert text[|part|..] == [] <==> text == part;
    }
  }

  lemma Suffix(last: seq<byte>, text: seq<byte>)
    requires STAR !in last
    ensures Matches([STAR] + last, text) <==> |text| >= |last| && text[|text| - |last|..] == last
  {
    StarCoversAnyRun(last, text);
    if Matches([STAR] + last, text) {
      var k :| 0 <= k <= |text| && Matches(last, text[k..]);
      Whole(last, text[k..]);
      assert k == |text| - |last|;
    }
    if |text| >= |last| && text[|text| - |last|..] == last {
      Whole(last, text[|text| - |last|..]);
    }
  }

  /** A tag is excluded exactly when one of the patterns matches all of it. */
  ghost predicate Excluded(patterns: seq<seq<byte>>, tag: seq<byte>) {
    exists i :: 0 <= i < |patterns| && Matches(patterns[i], tag)
  }

  method TagExcluded(patterns: seq<seq<byte>>, tag: seq<byte>) returns (excluded: bool)
    ensures excluded <==> Excluded(patterns, tag)
  {
    for i := 0 to |patterns|
      invariant !Excluded(patterns[..i], tag)
    {
      var hit := GlobMatch(patterns[i], tag);
      if hit {
        return true;
      }
      assert patterns[..i + 1] == patterns[..i] + [patterns[i]];
    }
    assert patterns[..|patterns|] == patterns;
    return false;
  }

  /** The two matchers of the forge give the same answer for every pattern on
      exactly the values the branch-filter loop is complete on. */
  method BothMatchers(pattern: seq<byte>, value: seq<byte>) returns (branch: bool, tag: bool)
    ensures branch ==> tag
    ensures StarLoop.StarOnlyLast(value) ==> branch == tag
    ensures !StarLoop.StarOnlyLast(value) && STAR in value && pattern == StarLoop.Witness(value) ==>
      tag && !branch
  {
    branch := StarLoop.GlobMatch(pattern, value);
    tag := GlobMatch(pattern, value);
    StarLoop.ExactlyWhenComplete(value);
    if branch {
      StarLoop.Sound(pattern, value);
    }
    if !StarLoop.StarOnlyLast(value) {
      StarLoop.WitnessFails(value);
    }
  }
}
