/** `str::find`. */
module Substring {
  import opened Prelude

  predicate Occurs(needle: seq<byte>, hay: seq<byte>, k: nat) {
    k <= |hay| && needle <= hay[k..]
  }

  /** `needle` occurs in `hay` at `at` and nowhere before, or nowhere at all. */
  ghost predicate Leftmost(hay: seq<byte>, needle: seq<byte>, at: Option<nat>) {
    && (at.Some? ==> at.value + |needle| <= |hay| && Occurs(needle, hay, at.value))
    && forall k: nat :: Occurs(needle, hay, k) ==> at.Some? && at.value <= k
  }

  function Find(hay: seq<byte>, needle: seq<byte>): (at: Option<nat>)
    ensures Leftmost(hay, needle, at)
  {
    if needle <= hay then
      assert hay[0..] == hay;
      Some(0)
    else if hay == [] then None
    else
      var at := Find(hay[1..], needle);
      OccursLater(hay, needle, at);
      if at.None? then None else Some(at.value + 1)
  }

  lemma OccursLater(hay: seq<byte>, needle: seq<byte>, at: Option<nat>)
    requires hay != [] && !(needle <= hay) && Leftmost(hay[1..], needle, at)
    ensures at.Some? ==> Occurs(needle, hay, at.value + 1)
    ensures forall k: nat :: Occurs(needle, hay, k) ==> at.Some? && at.value + 1 <= k
  {
    if at.Some? {
      assert hay[1..][at.value..] == hay[at.value + 1..];
    }
    assert hay[0..] == hay;
    forall k: nat | Occurs(needle, hay, k)
      ensures at.Some? && at.value + 1 <= k
    {
      assert hay[1..][k - 1..] == hay[k..];
      assert Occurs(needle, hay[1..], k - 1);
    }
  }
}
