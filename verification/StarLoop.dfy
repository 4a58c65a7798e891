/** The branch-filter matcher of the push bridge: one pass over the value with
    a single remembered star to fall back to.

    The loop compares bytes before it looks for a star, so a `*` byte in the
    *value* is consumed by a pattern star as if it were a literal. Everything it
    accepts is a real match; `ExactlyWhenComplete` says on which values it also
    accepts everything it should. */
module StarLoop {
  import opened Prelude
  import opened Wildcard

  /** The loop from any of its states: `star` is the remembered star and `mark`
      the value index its run currently ends at. */
  function Scan(p: seq<byte>, v: seq<byte>, pi: nat, vi: nat, star: Option<nat>, mark: nat): bool
    requires pi <= |p| && mark <= vi <= |v|
    requires star.Some? ==> star.value < |p|
    decreases |v| - mark, |v| - vi, |p| - pi
  {
    if vi == |v| then AllStars(p[pi..])
    else if pi < |p| && p[pi] == v[vi] then Scan(p, v, pi + 1, vi + 1, star, mark)
    else if pi < |p| && p[pi] == STAR then Scan(p, v, pi + 1, vi, Some(pi), vi)
    else if star.Some? then Scan(p, v, star.value + 1, mark + 1, star, mark + 1)
    else false
  }

  predicate StarGlob(p: seq<byte>, v: seq<byte>) {
    p == v || Scan(p, v, 0, 0, None, 0)
  }

  /** The imperative matcher computes exactly `StarGlob`. */
  method GlobMatch(pattern: seq<byte>, value: seq<byte>) returns (matched: bool)
    ensures matched == StarGlob(pattern, value)
  {
    if pattern == value {
      return true;
    }
    var pi: nat, vi: nat := 0, 0;
    var star: Option<nat> := None;
    var mark: nat := 0;
    while vi < |value|
      invariant pi <= |pattern| && mark <= vi <= |value|
      invariant star.Some? ==> star.value < |pattern|
      invariant StarGlob(pattern, value) == Scan(pattern, value, pi, vi, star, mark)
      decreases |value| - mark, |value| - vi, |pattern| - pi
    {
      if pi < |pattern| && pattern[pi] == value[vi] {
        pi, vi := pi + 1, vi + 1;
      } else if pi < |pattern| && pattern[pi] == STAR {
        star, mark, pi := Some(pi), vi, pi + 1;
      } else if star.Some? {
        pi, mark := star.value + 1, mark + 1;
        vi := mark;
      } else {
        return false;
      }
    }
    ghost var stopped := pi;
    while pi < |pattern| && pattern[pi] == STAR
      invariant stopped <= pi <= |pattern|
      invariant AllStars(pattern[stopped..]) <==> AllStars(pattern[pi..])
    {
      assert pattern[pi..] == [pattern[pi]] + pattern[pi + 1..];
      pi := pi + 1;
    }
    matched := pi == |pattern|;
    if !matched {
      assert pattern[pi..][0] == pattern[pi];
    }
  }

  // ---- Soundness, for every pattern and value ----

  lemma {:induction false} ScanSound(p: seq<byte>, v: seq<byte>, pi: nat, vi: nat, star: Option<nat>, mark: nat)
    requires pi <= |p| && mark <= vi <= |v|
    requires star.Some? ==> star.value < |p| && p[star.value] == STAR
    requires Matches(p[pi..], v[vi..]) ==> Matches(p, v)
    requires star.Some? && Matches(p[star.value..], v[mark..]) ==> Matches(p, v)
    requires Scan(p, v, pi, vi, star, mark)
    ensures Matches(p, v)
    decreases |v| - mark, |v| - vi, |p| - pi
  {
    if vi == |v| {
      MatchesEmpty(p[pi..]);
      assert v[vi..] == [];
    } else if pi < |p| && p[pi] == v[vi] {
      Unfold(p, v, pi, vi);
      ScanSound(p, v, pi + 1, vi + 1, star, mark);
    } else if pi < |p| && p[pi] == STAR {
      Unfold(p, v, pi, vi);
      ScanSound(p, v, pi + 1, vi, Some(pi), vi);
    } else {
      Unfold(p, v, star.value, mark);
      Unfold(p, v, star.value, mark + 1);
      ScanSound(p, v, star.value + 1, mark + 1, star, mark + 1);
    }
  }

  /** `Matches` one step into the suffixes at `i` and `j`. */
  lemma Unfold(p: seq<byte>, v: seq<byte>, i: nat, j: nat)
    requires i < |p| && j <= |v|
    ensures Matches(p[i..], v[j..]) <==>
      if p[i] == STAR then Matches(p[i + 1..], v[j..]) || (j < |v| && Matches(p[i..], v[j + 1..]))
      else j < |v| && p[i] == v[j] && Matches(p[i + 1..], v[j + 1..])
  {
    assert p[i..][1..] == p[i + 1..];
    if j < |v| {
      assert v[j..][1..] == v[j + 1..];
    }
  }

  lemma Sound(p: seq<byte>, v: seq<byte>)
    requires StarGlob(p, v)
    ensures Matches(p, v)
  {
    assert p[0..] == p && v[0..] == v;
    if p == v {
      MatchesItself(p);
    } else {
      ScanSound(p, v, 0, 0, None, 0);
    }
  }

  lemma {:induction false} MatchesItself(p: seq<byte>)
    ensures Matches(p, p)
  {
    if p != [] {
      MatchesItself(p[1..]);
    }
  }

  // ---- Completeness, where the value has no star before its last byte ----

  predicate StarOnlyLast(v: seq<byte>) {
    forall i :: 0 <= i < |v| - 1 ==> v[i] != STAR
  }

  /** What the scan has established while value bytes remain: nothing was lost
      by matching literally, and since the remembered star only literal bytes
      were consumed. */
  ghost predicate Faithful(p: seq<byte>, v: seq<byte>, pi: nat, vi: nat, star: Option<nat>, mark: nat)
    requires pi <= |p| && mark <= vi <= |v|
  {
    match star
    case None => Matches(p, v) ==> Matches(p[pi..], v[vi..])
    case Some(s) =>
      && s < pi && p[s] == STAR
      && STAR !in p[s + 1..pi]
      && p[s + 1..pi] == v[mark..vi]
      && (Matches(p, v) ==> Matches(p[s..], v[mark..]))
  }

  /** Leftmost placement of the literal run after a star loses nothing: any
      match of the run further right leaves a shorter value for what follows. */
  lemma RunMovesLeft(p: seq<byte>, v: seq<byte>, pi: nat, vi: nat, s: nat, mark: nat)
    requires s < pi <= |p| && mark <= vi <= |v|
    requires p[s] == STAR && STAR !in p[s + 1..pi] && p[s + 1..pi] == v[mark..vi]
    requires Matches(p[s..], v[mark..])
    ensures exists k :: vi <= k <= |v| && Matches(p[pi..], v[k..])
  {
    var run, rest := p[s + 1..pi], v[mark..];
    assert p[s..] == [STAR] + (run + p[pi..]);
    StarCoversAnyRun(run + p[pi..], rest);
    var k :| 0 <= k <= |rest| && Matches(run + p[pi..], rest[k..]);
    LiteralPrefix(run, p[pi..], rest[k..]);
    assert rest[k..][|run|..] == v[vi + k..];
  }

  lemma {:induction false} ScanComplete(p: seq<byte>, v: seq<byte>, pi: nat, vi: nat, star: Option<nat>, mark: nat)
    requires pi <= |p| && mark <= vi <= |v|
    requires star.Some? ==> star.value < |p|
    requires StarOnlyLast(v) && Matches(p, v)
    requires if vi < |v| then Faithful(p, v, pi, vi, star, mark) else AllStars(p[pi..])
    ensures Scan(p, v, pi, vi, star, mark)
    decreases |v| - mark, |v| - vi, |p| - pi
  {
    if vi == |v| {
    } else if pi < |p| && p[pi] == v[vi] {
      LiteralStep(p, v, pi, vi, star, mark);
      ScanComplete(p, v, pi + 1, vi + 1, star, mark);
    } else if pi < |p| && p[pi] == STAR {
      StarStep(p, v, pi, vi, star, mark);
      ScanComplete(p, v, pi + 1, vi, Some(pi), vi);
    } else {
      FallBack(p, v, pi, vi, star, mark);
      ScanComplete(p, v, star.value + 1, mark + 1, star, mark + 1);
    }
  }

  /** At a pattern star, the rest of the pattern still matches the rest of the value. */
  lemma AtAStar(p: seq<byte>, v: seq<byte>, pi: nat, vi: nat, star: Option<nat>, mark: nat)
    requires pi < |p| && mark <= vi < |v| && p[pi] == STAR
    requires Matches(p, v) && Faithful(p, v, pi, vi, star, mark)
    ensures Matches(p[pi..], v[vi..])
  {
    if star.Some? {
      RunMovesLeft(p, v, pi, vi, star.value, mark);
      var k :| vi <= k <= |v| && Matches(p[pi..], v[k..]);
      assert v[vi..][k - vi..] == v[k..];
      StarSwallows(p[pi..], v[vi..], k - vi);
    }
  }

  lemma StarStep(p: seq<byte>, v: seq<byte>, pi: nat, vi: nat, star: Option<nat>, mark: nat)
    requires pi < |p| && mark <= vi < |v| && p[pi] == STAR
    requires Matches(p, v) && Faithful(p, v, pi, vi, star, mark)
    ensures Faithful(p, v, pi + 1, vi, Some(pi), vi)
  {
    AtAStar(p, v, pi, vi, star, mark);
    assert p[pi + 1..pi + 1] == v[vi..vi];
  }

  lemma LiteralStep(p: seq<byte>, v: seq<byte>, pi: nat, vi: nat, star: Option<nat>, mark: nat)
    requires pi < |p| && mark <= vi < |v| && p[pi] == v[vi]
    requires StarOnlyLast(v) && Matches(p, v) && Faithful(p, v, pi, vi, star, mark)
    ensures if vi + 1 < |v| then Faithful(p, v, pi + 1, vi + 1, star, mark) else AllStars(p[pi + 1..])
  {
    if p[pi] == STAR {
      AtAStar(p, v, pi, vi, star, mark);
      assert v[vi..] == [STAR];
      OnlyStarsMatchAStar(p[pi..]);
      assert p[pi..][1..] == p[pi + 1..];
    } else {
      Unfold(p, v, pi, vi);
      if star.Some? {
        assert p[star.value + 1..pi + 1] == p[star.value + 1..pi] + [p[pi]];
        assert v[mark..vi + 1] == v[mark..vi] + [v[vi]];
        if vi + 1 == |v| {
          RunMovesLeft(p, v, pi + 1, vi + 1, star.value, mark);
          MatchesEmpty(p[pi + 1..]);
          assert v[|v|..] == [];
        }
      } else if vi + 1 == |v| {
        assert v[vi + 1..] == [];
        MatchesEmpty(p[pi + 1..]);
      }
    }
  }

  lemma FallBack(p: seq<byte>, v: seq<byte>, pi: nat, vi: nat, star: Option<nat>, mark: nat)
    requires pi <= |p| && mark <= vi < |v|
    requires pi < |p| ==> p[pi] != v[vi] && p[pi] != STAR
    requires Matches(p, v) && Faithful(p, v, pi, vi, star, mark)
    ensures star.Some? && star.value < |p|
    ensures if mark + 1 < |v| then Faithful(p, v, star.value + 1, mark + 1, star, mark + 1)
            else AllStars(p[star.value + 1..])
  {
    Mismatch(p, v, pi, vi);
    if star.Some? {
      var s := star.value;
      var run := p[s + 1..pi];
      assert p[s + 1..] == run + p[pi..];
      LiteralPrefix(run, p[pi..], v[mark..]);
      if run <= v[mark..] {
        assert v[mark..][|run|..] == v[vi..];
      }
      Unfold(p, v, s, mark);
      assert p[s + 1..s + 1] == v[mark + 1..mark + 1];
      if mark + 1 == |v| {
        assert v[mark + 1..] == [];
        MatchesEmpty(p[s..]);
        assert p[s..][1..] == p[s + 1..];
      }
    }
  }

  lemma Mismatch(p: seq<byte>, v: seq<byte>, pi: nat, vi: nat)
    requires pi <= |p| && vi < |v|
    requires pi < |p| ==> p[pi] != v[vi] && p[pi] != STAR
    ensures !Matches(p[pi..], v[vi..])
  {
    if pi < |p| {
      Unfold(p, v, pi, vi);
    }
  }

  lemma Complete(p: seq<byte>, v: seq<byte>)
    requires StarOnlyLast(v) && Matches(p, v)
    ensures StarGlob(p, v)
  {
    assert p[0..] == p && v[0..] == v;
    if v == [] {
      MatchesEmpty(p);
    }
    ScanComplete(p, v, 0, 0, None, 0);
  }

  // ---- The values on which the loop is wrong ----

  function FirstStar(v: seq<byte>): (i: nat)
    requires STAR in v
    ensures i < |v| && v[i] == STAR
    ensures forall j :: 0 <= j < i ==> v[j] != STAR
  {
    if v[0] == STAR then 0 else FirstStar(v[1..]) + 1
  }

  /** The bytes before the first star of `v`, then one star: it matches `v`,
      and the loop spends its star on the star byte. */
  function Witness(v: seq<byte>): seq<byte>
    requires STAR in v
  {
    v[..FirstStar(v)] + [STAR]
  }

  lemma {:induction false} ScanLiterally(p: seq<byte>, v: seq<byte>, i: nat)
    requires i <= |p| < |v| && p <= v
    ensures !Scan(p, v, i, i, None, 0)
    decreases |p| - i
  {
    if i < |p| {
      assert p[i] == v[i];
      ScanLiterally(p, v, i + 1);
    }
  }

  lemma WitnessFails(v: seq<byte>)
    requires !StarOnlyLast(v)
    ensures STAR in v && Matches(Witness(v), v) && !StarGlob(Witness(v), v)
  {
    var at :| 0 <= at < |v| - 1 && v[at] == STAR;
    var i := FirstStar(v);
    var p := Witness(v);
    LiteralPrefix(v[..i], [STAR], v);
    StarCoversAnyRun([], v[i..]);
    assert [STAR] + [] == [STAR] && v[i..][|v| - i..] == [];
    assert p <= v;
    ScanLiterally(p, v, 0);
  }

  /** Main result: the loop decides the wildcard relation for every pattern
      exactly on the values whose only possible `*` is their last byte. */
  lemma ExactlyWhenComplete(v: seq<byte>)
    ensures (forall p :: StarGlob(p, v) <==> Matches(p, v)) <==> StarOnlyLast(v)
  {
    if StarOnlyLast(v) {
      forall p ensures StarGlob(p, v) <==> Matches(p, v) {
        if StarGlob(p, v) { Sound(p, v); }
        if Matches(p, v) { Complete(p, v); }
      }
    } else {
      WitnessFails(v);
    }
  }
}
