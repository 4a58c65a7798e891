/** Synthetic workflow ids: an FNV-1a hash of the name folded into the positive
    64-bit range, moved to the next free id when it is taken. */
module WorkflowId {
  import opened Prelude

  /** The bytes of a name. */
  type Name = seq<bv8>

  const BASIS: bv64 := 0xcbf2_9ce4_8422_2325
  const MAX_ID := 0x7fff_ffff_ffff_ffff

  /** One byte folded into the hash, wrapping at 64 bits. */
  function Fold(hash: bv64, b: bv8): bv64 {
    (hash ^ (b as bv64)) * 0x100_0000_01b3
  }

  function Hash(name: Name): bv64 {
    if name == [] then BASIS else Fold(Hash(name[..|name| - 1]), name[|name| - 1])
  }

  /** `low` is the number the lower 63 bits of the hash make, under its top bit. */
  predicate LowBits(hash: nat, low: nat) {
    low < 0x8000_0000_0000_0000 && (hash == low || hash == 0x8000_0000_0000_0000 + low)
  }

  /** The id a hash stands for: its lower 63 bits, or 1 if they are zero. */
  function Folded(hash: nat): (id: nat)
    requires hash < 0x1_0000_0000_0000_0000
    ensures 1 <= id <= MAX_ID
    ensures if LowBits(hash, 0) then id == 1 else LowBits(hash, id)
  {
    Max(hash % (MAX_ID + 1), 1)
  }

  lemma Is64Bits(hash: bv64)
    ensures hash as nat < 0x1_0000_0000_0000_0000
  {
  }

  /** The id a name asks for. */
  function Hashed(name: Name): (id: nat)
    ensures 1 <= id <= MAX_ID
  {
    Is64Bits(Hash(name));
    Folded(Hash(name) as nat)
  }

  /** The `n`th id after `start`, going round after the last. */
  function Walk(start: nat, n: nat): (id: nat)
    requires 1 <= start <= MAX_ID && n < MAX_ID
    ensures 1 <= id <= MAX_ID
  {
    if start + n <= MAX_ID then start + n else start + n - MAX_ID
  }

  /** `id` is the first free one from `start` on. */
  ghost predicate FirstFree(taken: set<nat>, start: nat, id: nat)
    requires 1 <= start <= MAX_ID
  {
    id !in taken && exists n: nat :: n < MAX_ID && id == Walk(start, n) && AllTaken(taken, start, n)
  }

  predicate AllTaken(taken: set<nat>, start: nat, n: nat)
    requires 1 <= start <= MAX_ID && n <= MAX_ID
  {
    forall k: nat :: k < n ==> Walk(start, k) in taken
  }

  /** The ids passed are as many as the steps, so a run of taken ids is no longer
      than there are ids taken. */
  lemma {:induction false} PassedIds(taken: set<nat>, start: nat, n: nat) returns (passed: set<nat>)
    requires 1 <= start <= MAX_ID && n <= MAX_ID && AllTaken(taken, start, n)
    ensures |passed| == n && passed <= taken
    ensures forall x :: x in passed ==> exists k: nat :: k < n && x == Walk(start, k)
  {
    passed := {};
    var i: nat := 0;
    while i < n
      invariant i <= n && |passed| == i && passed <= taken
      invariant forall x :: x in passed ==> exists k: nat :: k < i && x == Walk(start, k)
    {
      assert Walk(start, i) !in passed;
      passed := passed + {Walk(start, i)};
      i := i + 1;
    }
  }

  lemma RunIsShort(taken: set<nat>, start: nat, n: nat)
    requires 1 <= start <= MAX_ID && n <= MAX_ID && AllTaken(taken, start, n)
    ensures n <= |taken|
  {
    var passed := PassedIds(taken, start, n);
    SmallerSet(passed, taken);
  }

  method HashName(name: Name) returns (hash: bv64)
    ensures hash == Hash(name)
  {
    hash := BASIS;
    for i := 0 to |name|
      invariant hash == Hash(name[..i])
    {
      assert name[..i + 1][..i] == name[..i];
      hash := Fold(hash, name[i]);
    }
    assert name[..|name|] == name;
  }

  /** Main result: the probe ends whenever an id is left, at the first free id
      from the hashed one on. */
  method AssignId(name: Name, taken: set<nat>) returns (id: nat, taken': set<nat>)
    requires |taken| < MAX_ID
    ensures FirstFree(taken, Hashed(name), id) && taken' == taken + {id}
    ensures 1 <= id <= MAX_ID && (id == Hashed(name) <==> Hashed(name) !in taken)
  {
    var hash := HashName(name);
    Is64Bits(hash);
    id := Folded(hash as nat);
    ghost var start: nat, n: nat := id, 0;
    while id in taken
      invariant n < MAX_ID && id == Walk(start, n) && AllTaken(taken, start, n)
      decreases MAX_ID - n
    {
      RunIsShort(taken, start, n + 1);
      id := if id >= MAX_ID then 1 else id + 1;
      n := n + 1;
    }
    taken' := taken + {id};
  }

  predicate Distinct<T(==)>(s: seq<T>) {
    forall i, j :: 0 <= i < j < |s| ==> s[i] != s[j]
  }

  /** The `k`th name has its hashed id, or an earlier name has. */
  predicate OwnOrTaken(names: seq<Name>, ids: seq<nat>, k: nat)
    requires k < |ids| <= |names|
  {
    ids[k] == Hashed(names[k]) || Hashed(names[k]) in ids[..k]
  }

  /** The ids of the first names, and the set of them. */
  ghost predicate Assigned(names: seq<Name>, ids: seq<nat>, taken: set<nat>) {
    && |ids| == |taken| <= |names| && (forall id :: id in taken <==> id in ids)
    && Distinct(ids) && (forall k :: 0 <= k < |ids| ==> 1 <= ids[k] <= MAX_ID)
    && forall k: nat :: k < |ids| ==> OwnOrTaken(names, ids, k)
  }

  lemma AssignedOne(names: seq<Name>, ids: seq<nat>, taken: set<nat>, id: nat)
    requires Assigned(names, ids, taken) && |ids| < |names| && id !in taken && 1 <= id <= MAX_ID
    requires Hashed(names[|ids|]) in taken || id == Hashed(names[|ids|])
    ensures Assigned(names, ids + [id], taken + {id})
  {
    var longer := ids + [id];
    forall k: nat | k < |longer|
      ensures OwnOrTaken(names, longer, k)
    {
      assert k < |ids| ==> OwnOrTaken(names, ids, k);
      assert longer[..k] == ids[..k];
    }
  }

  /** No two of the names hash alike. */
  predicate NoneCollide(names: seq<Name>) {
    forall i, j :: 0 <= i < j < |names| ==> Hashed(names[i]) != Hashed(names[j])
  }

  /** When no two names hash alike, every name has its hash. */
  lemma {:induction false} AllOwn(names: seq<Name>, ids: seq<nat>, taken: set<nat>, k: nat)
    requires Assigned(names, ids, taken) && k < |ids|
    requires NoneCollide(names)
    ensures ids[k] == Hashed(names[k])
  {
    assert OwnOrTaken(names, ids, k);
    if Hashed(names[k]) in ids[..k] {
      var j: nat :| j < k && ids[j] == Hashed(names[k]);
      AllOwn(names, ids, taken, j);
    }
  }

  /** Every name has the id that depends on it alone. */
  predicate AllHashed(names: seq<Name>, ids: seq<nat>) {
    |ids| == |names| && forall k :: 0 <= k < |ids| ==> ids[k] == Hashed(names[k])
  }

  /** Main result: one projection's ids are pairwise distinct, and every name gets
      the id that depends on it alone if and only if no two names hash alike. */
  method AssignIds(names: seq<Name>) returns (ids: seq<nat>)
    requires |names| <= MAX_ID
    ensures |ids| == |names| && Distinct(ids) && forall i :: 0 <= i < |ids| ==> 1 <= ids[i] <= MAX_ID
    ensures forall k: nat :: k < |ids| ==> OwnOrTaken(names, ids, k)
    ensures AllHashed(names, ids) <==> NoneCollide(names)
  {
    ids := [];
    var taken: set<nat> := {};
    for i := 0 to |names|
      invariant |ids| == i && Assigned(names, ids, taken)
    {
      var id, more := AssignId(names[i], taken);
      AssignedOne(names, ids, taken, id);
      ids, taken := ids + [id], more;
    }
    if NoneCollide(names) {
      forall k: nat | k < |ids|
        ensures ids[k] == Hashed(names[k])
      {
        AllOwn(names, ids, taken, k);
      }
    }
  }

  // ---- Two names that collide ----

  /** `KSIdSyVL_We` and `2mjDvkWFCbf`. */
  const ONE: Name := [75, 83, 73, 100, 83, 121, 86, 76, 95, 87, 101]
  const OTHER: Name := [50, 109, 106, 68, 118, 107, 87, 70, 67, 98, 102]

  /** The hash of the name goes through `trace`. */
  predicate Traces(name: Name, trace: seq<bv64>) {
    && |trace| == |name| + 1 && trace[0] == BASIS
    && forall i :: 0 <= i < |name| ==> Fold(trace[i], name[i]) == trace[i + 1]
  }

  lemma {:induction false} HashTrace(name: Name, trace: seq<bv64>, k: nat)
    requires Traces(name, trace) && k <= |name|
    ensures Hash(name[..k]) == trace[k]
  {
    if k > 0 {
      HashTrace(name, trace, k - 1);
      assert name[..k][..k - 1] == name[..k - 1];
    }
  }

  lemma OneFolds()
    ensures Fold(0xcbf29ce484222325, 75) == 0xaf64064c860233ea
    ensures Fold(0xaf64064c860233ea, 83) == 0x92a6d07b5bde35b
    ensures Fold(0x92a6d07b5bde35b, 73) == 0x50fa5619d1a8d796
    ensures Fold(0x50fa5619d1a8d796, 100) == 0x42383fdf41e6f036
    ensures Fold(0x42383fdf41e6f036, 83) == 0x6c84ed5cfb6a7b9f
    ensures Fold(0x6c84ed5cfb6a7b9f, 121) == 0xd05b3aff35f087d2
    ensures Fold(0xd05b3aff35f087d2, 86) == 0xfb8cc3a8a7b6454c
    ensures Fold(0xfb8cc3a8a7b6454c, 76) == 0x26757794fab73f00
    ensures Fold(0x26757794fab73f00, 95) == 0x10d991260560ae6d
    ensures Fold(0x10d991260560ae6d, 87) == 0x25fdd9b23480c8e
    ensures Fold(0x25fdd9b23480c8e, 101) == 0x50f2799cf36df351
  {
  }

  lemma HashOne()
    ensures Hash(ONE) == 0x50f2799cf36df351
  {
    var trace: seq<bv64> := [
      0xcbf29ce484222325, 0xaf64064c860233ea, 0x92a6d07b5bde35b, 0x50fa5619d1a8d796,
      0x42383fdf41e6f036, 0x6c84ed5cfb6a7b9f, 0xd05b3aff35f087d2, 0xfb8cc3a8a7b6454c,
      0x26757794fab73f00, 0x10d991260560ae6d, 0x25fdd9b23480c8e, 0x50f2799cf36df351];
    OneFolds();
    HashTrace(ONE, trace, 11);
    assert ONE[..11] == ONE;
  }

  lemma OtherFolds()
    ensures Fold(0xcbf29ce484222325, 50) == 0xaf63af4c8601a015
    ensures Fold(0xaf63af4c8601a015, 109) == 0x8035707b4c3abe8
    ensures Fold(0x8035707b4c3abe8, 106) == 0x61586418287c6de6
    ensures Fold(0x61586418287c6de6, 68) == 0xe59fb70ccb6e4a46
    ensures Fold(0xe59fb70ccb6e4a46, 118) == 0x9cae3abdac680f90
    ensures Fold(0x9cae3abdac680f90, 107) == 0xa41dcb4bf4d32781
    ensures Fold(0xa41dcb4bf4d32781, 87) == 0xb1c8481102ccb0a2
    ensures Fold(0xb1c8481102ccb0a2, 70) == 0xe40358e7c1d0936c
    ensures Fold(0xe40358e7c1d0936c, 67) == 0x424340ce556a18dd
    ensures Fold(0x424340ce556a18dd, 98) == 0x25fdd9b23480c8d
    ensures Fold(0x25fdd9b23480c8d, 102) == 0x50f2799cf36df351
  {
  }

  lemma HashOther()
    ensures Hash(OTHER) == 0x50f2799cf36df351
  {
    var trace: seq<bv64> := [
      0xcbf29ce484222325, 0xaf63af4c8601a015, 0x8035707b4c3abe8, 0x61586418287c6de6,
      0xe59fb70ccb6e4a46, 0x9cae3abdac680f90, 0xa41dcb4bf4d32781, 0xb1c8481102ccb0a2,
      0xe40358e7c1d0936c, 0x424340ce556a18dd, 0x25fdd9b23480c8d, 0x50f2799cf36df351];
    OtherFolds();
    HashTrace(OTHER, trace, 11);
    assert OTHER[..11] == OTHER;
  }

  /** Main result: two short names collide, so whichever of them comes second in a
      projection gets an id that depends on the other. */
  lemma NamesCollide()
    ensures ONE != OTHER && Hashed(ONE) == Hashed(OTHER) == 0x50f2799cf36df351 && !NoneCollide([ONE, OTHER])
  {
    HashOne();
    HashOther();
    assert ONE[0] != OTHER[0];
    SameHash(ONE, OTHER);
  }

  lemma SameHash(a: Name, b: Name)
    requires Hash(a) == Hash(b)
    ensures Hashed(a) == Hashed(b) && !NoneCollide([a, b])
  {
    var both := [a, b];
    assert both[0] == a && both[1] == b;
  }
}
