/** What a branch or tag pattern means: `*` stands for any run of bytes, every
    other byte for itself, and the whole value has to be covered.

    Both matchers of the forge are measured against this one definition. */
module Wildcard {
  import opened Prelude

  const STAR: byte := 42

  predicate Matches(p: seq<byte>, v: seq<byte>)
    decreases |p| + |v|
  {
    if p == [] then v == []
    else if p[0] == STAR then Matches(p[1..], v) || (v != [] && Matches(p, v[1..]))
    else v != [] && p[0] == v[0] && Matches(p[1..], v[1..])
  }

  predicate AllStars(p: seq<byte>) {
    forall i :: 0 <= i < |p| ==> p[i] == STAR
  }

  /** The definition says what it should: a leading star covers some prefix. */
  lemma {:induction false} StarCoversAnyRun(q: seq<byte>, v: seq<byte>)
    ensures Matches([STAR] + q, v) <==> exists k :: 0 <= k <= |v| && Matches(q, v[k..])
    decreases |v|
  {
    var p := [STAR] + q;
    assert p[1..] == q;
    assert v[0..] == v;
    if v != [] {
      StarCoversAnyRun(q, v[1..]);
      if Matches(p, v[1..]) {
        var k :| 0 <= k <= |v[1..]| && Matches(q, v[1..][k..]);
        assert v[1..][k..] == v[k + 1..];
      }
      if k :| 0 <= k <= |v| && Matches(q, v[k..]) {
        if k > 0 {
          assert v[1..][k - 1..] == v[k..];
        }
      }
    }
  }

  /** A leading star may also swallow the first `k` bytes. */
  lemma {:induction false} StarSwallows(p: seq<byte>, v: seq<byte>, k: nat)
    requires p != [] && p[0] == STAR && k <= |v|
    requires Matches(p, v[k..])
    ensures Matches(p, v)
    decreases k
  {
    if k == 0 {
      assert v[0..] == v;
    } else {
      assert v[1..][k - 1..] == v[k..];
      StarSwallows(p, v[1..], k - 1);
    }
  }

  lemma {:induction false} LiteralPrefix(a: seq<byte>, q: seq<byte>, v: seq<byte>)
    requires STAR !in a
    ensures Matches(a + q, v) <==> a <= v && Matches(q, v[|a|..])
  {
    if a == [] {
      assert a + q == q && v[0..] == v;
    } else {
      assert (a + q)[1..] == a[1..] + q;
      if v != [] && a[0] == v[0] {
        LiteralPrefix(a[1..], q, v[1..]);
        if |a| <= |v| {
          assert v[1..][|a[1..]|..] == v[|a|..];
        }
        assert a <= v <==> a[1..] <= v[1..] by {
          assert a == [a[0]] + a[1..];
          assert v == [v[0]] + v[1..];
        }
      }
    }
  }

  lemma {:induction false} MatchesEmpty(p: seq<byte>)
    ensures Matches(p, []) <==> AllStars(p)
  {
    if p != [] && p[0] == STAR {
      MatchesEmpty(p[1..]);
      assert AllStars(p) <==> AllStars(p[1..]) by {
        assert p == [p[0]] + p[1..];
      }
    }
  }

  /** No pattern byte stands for a literal star, so only stars match one. */
  lemma {:induction false} OnlyStarsMatchAStar(p: seq<byte>)
    requires Matches(p, [STAR])
    ensures AllStars(p)
  {
    assert p[0] == STAR;
    if Matches(p[1..], [STAR]) {
      OnlyStarsMatchAStar(p[1..]);
    } else {
      assert [STAR][1..] == [];
      MatchesEmpty(p);
    }
    assert p == [p[0]] + p[1..];
  }
}
