/** The order Rust gives strings: element by element, a proper prefix first. */
module Lex {

  predicate Less(a: string, b: string) {
    b != [] && (a == [] || a[0] < b[0] || (a[0] == b[0] && Less(a[1..], b[1..])))
  }

  lemma {:induction false} Total(a: string, b: string)
    ensures Less(a, b) || a == b || Less(b, a)
  {
    if a != [] && b != [] && a[0] == b[0] {
      Total(a[1..], b[1..]);
      assert a == [a[0]] + a[1..] && b == [b[0]] + b[1..];
    }
  }

  lemma {:induction false} Asymmetric(a: string, b: string)
    requires Less(a, b)
    ensures !Less(b, a) && a != b
  {
    if a != [] && a[0] == b[0] {
      Asymmetric(a[1..], b[1..]);
    }
  }

  lemma {:induction false} Transitive(a: string, b: string, c: string)
    requires Less(a, b) && Less(b, c)
    ensures Less(a, c)
  {
    if a != [] && a[0] == b[0] == c[0] {
      Transitive(a[1..], b[1..], c[1..]);
    }
  }

  /** The two agree on `k` characters; then `a` ends, or has the smaller one. */
  predicate PartAt(a: string, b: string, k: nat) {
    && k <= |a| && k < |b| && (forall i :: 0 <= i < k ==> a[i] == b[i])
    && (k == |a| || a[k] < b[k])
  }

  ghost predicate Below(a: string, b: string) {
    exists k: nat :: PartAt(a, b, k)
  }

  lemma {:induction false} LessIsBelow(a: string, b: string)
    ensures Less(a, b) <==> Below(a, b)
  {
    if a != [] && b != [] && a[0] == b[0] {
      LessIsBelow(a[1..], b[1..]);
      if k: nat :| PartAt(a[1..], b[1..], k) {
        assert PartAt(a, b, k + 1);
      }
      if k: nat :| PartAt(a, b, k) {
        assert k > 0;
        assert PartAt(a[1..], b[1..], k - 1);
      }
    } else {
      assert Less(a, b) ==> PartAt(a, b, 0);
      if k: nat :| PartAt(a, b, k) {
        assert k == 0;
      }
    }
  }
}
