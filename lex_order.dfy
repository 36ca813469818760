/**
 * Python's `<=` on `str`: lexicographic order by code point, where a proper
 * prefix comes first. (Dafny's own `<=` on sequences means "is a prefix of".)
 */
module LexOrder {

  predicate LexLe(a: string, b: string)
    ensures a <= b ==> LexLe(a, b)
  {
    a == [] ||
    (b != [] && (a[0] < b[0] || (a[0] == b[0] && LexLe(a[1..], b[1..]))))
  }

  /** Strictly earlier: `a < b` in Python. */
  predicate LexLt(a: string, b: string)
  {
    LexLe(a, b) && a != b
  }

  lemma {:induction false} LexLeReflexive(a: string)
    ensures LexLe(a, a)
  {
    if a != [] {
      LexLeReflexive(a[1..]);
    }
  }

  lemma {:induction false} LexLeAntisymmetric(a: string, b: string)
    ensures LexLe(a, b) && LexLe(b, a) ==> a == b
  {
    if a != [] && b != [] {
      LexLeAntisymmetric(a[1..], b[1..]);
      assert a == [a[0]] + a[1..] && b == [b[0]] + b[1..];
    }
  }

  lemma {:induction false} LexLeTransitive(a: string, b: string, c: string)
    ensures LexLe(a, b) && LexLe(b, c) ==> LexLe(a, c)
  {
    if a != [] && b != [] && c != [] && a[0] == b[0] && b[0] == c[0] {
      LexLeTransitive(a[1..], b[1..], c[1..]);
    }
  }

  lemma {:induction false} LexLeTotal(a: string, b: string)
    ensures LexLe(a, b) || LexLe(b, a)
  {
    if a != [] && b != [] && a[0] == b[0] {
      LexLeTotal(a[1..], b[1..]);
    }
  }

  /** `a` and `b` agree before position `k`, where `a` has the smaller code point. */
  ghost predicate FirstDifferenceBelow(a: string, b: string, k: nat)
  {
    k < |a| && k < |b| && a[..k] == b[..k] && a[k] < b[k]
  }

  /** A first difference of the tails, behind equal heads, is one of the whole strings. */
  lemma DifferenceShift(a: string, b: string, k: nat)
    requires a != [] && b != [] && a[0] == b[0]
    requires FirstDifferenceBelow(a[1..], b[1..], k)
    ensures FirstDifferenceBelow(a, b, k + 1)
  {
    assert a[..k + 1] == [a[0]] + a[1..][..k];
    assert b[..k + 1] == [b[0]] + b[1..][..k];
  }

  lemma {:induction false} DifferenceIsLexLe(a: string, b: string, k: nat)
    requires FirstDifferenceBelow(a, b, k)
    ensures LexLe(a, b)
  {
    if k > 0 {
      assert a[..k][0] == a[0] && b[..k][0] == b[0];
      assert a[1..][..k - 1] == a[..k][1..] && b[1..][..k - 1] == b[..k][1..];
      DifferenceIsLexLe(a[1..], b[1..], k - 1);
    }
  }

  lemma {:induction false} LexLeIsPrefixOrDifference(a: string, b: string)
    requires LexLe(a, b)
    ensures a <= b || exists k :: FirstDifferenceBelow(a, b, k)
  {
    if a != [] {
      if a[0] < b[0] {
        assert FirstDifferenceBelow(a, b, 0);
      } else {
        LexLeIsPrefixOrDifference(a[1..], b[1..]);
        if a[1..] <= b[1..] {
          assert a == [a[0]] + a[1..] && b == [b[0]] + b[1..];
        } else {
          var k :| FirstDifferenceBelow(a[1..], b[1..], k);
          DifferenceShift(a, b, k);
        }
      }
    }
  }

  /**
   * The order as Python documents it: `a <= b` holds when `a` is a prefix of
   * `b`, or when at the first position where they differ `a` has the smaller
   * code point.
   */
  lemma LexLeIsPythonOrder(a: string, b: string)
    ensures LexLe(a, b) <==> a <= b || exists k :: FirstDifferenceBelow(a, b, k)
  {
    if LexLe(a, b) {
      LexLeIsPrefixOrDifference(a, b);
    }
    if k :| FirstDifferenceBelow(a, b, k) {
      DifferenceIsLexLe(a, b, k);
    }
  }

  /** A string strictly after `b` is not at or before `b`. */
  lemma LexLtNotLe(a: string, b: string)
    requires LexLt(a, b)
    ensures !LexLe(b, a)
  {
    LexLeAntisymmetric(a, b);
  }
}
