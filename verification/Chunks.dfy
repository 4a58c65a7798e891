/** Cutting bytes into bounded pieces, and joining pieces again. */
module Chunks {
  import opened Prelude

  function Concat(parts: seq<seq<byte>>): seq<byte> {
    if parts == [] then [] else Concat(parts[..|parts| - 1]) + parts[|parts| - 1]
  }

  /** `slice::chunks(size)`. */
  function Pieces(bytes: seq<byte>, size: nat): (r: seq<seq<byte>>)
    requires size > 0
    ensures forall i :: 0 <= i < |r| ==> 1 <= |r[i]| <= size
    ensures forall i :: 0 <= i < |r| - 1 ==> |r[i]| == size
    decreases |bytes|
  {
    if bytes == [] then []
    else if |bytes| <= size then [bytes]
    else [bytes[..size]] + Pieces(bytes[size..], size)
  }

  lemma {:induction false} ConcatAppend(a: seq<seq<byte>>, b: seq<seq<byte>>)
    ensures Concat(a + b) == Concat(a) + Concat(b)
  {
    if b == [] {
      assert a + b == a;
    } else {
      var init, last := b[..|b| - 1], b[|b| - 1];
      assert (a + b)[..|a + b| - 1] == a + init;
      ConcatAppend(a, init);
    }
  }

  /** Cutting loses nothing. */
  lemma {:induction false} PiecesRejoin(bytes: seq<byte>, size: nat)
    requires size > 0
    ensures Concat(Pieces(bytes, size)) == bytes
    decreases |bytes|
  {
    if |bytes| > size {
      var head, tail := bytes[..size], bytes[size..];
      PiecesRejoin(tail, size);
      ConcatAppend([head], Pieces(tail, size));
      assert Concat([head]) == head;
      assert bytes == head + tail;
    } else if bytes != [] {
      assert Concat([bytes]) == bytes;
    }
  }
}
