/**
 * Frequency counting as Python's `collections.Counter` does it: keys are kept
 * in order of first occurrence, and `most_common(n)` is a stable sort of the
 * keys by descending count, cut to the first `n`. Ties between equal counts
 * therefore go to the key whose first occurrence is earliest.
 */
module Counting {

  /** Number of occurrences of `x` in `s`: the count a Counter keeps for `x`. */
  function CountOf(s: seq<string>, x: string): (c: nat)
    ensures c <= |s|
    ensures c > 0 <==> x in s
  {
    if s == [] then 0
    else (if s[0] == x then 1 else 0) + CountOf(s[1..], x)
  }

  /** The count is the multiplicity of `x` in the multiset of `s`. */
  lemma {:induction false} CountOfIsMultiplicity(s: seq<string>, x: string)
    ensures CountOf(s, x) == multiset(s)[x]
  {
    if s != [] {
      CountOfIsMultiplicity(s[1..], x);
      assert s == [s[0]] + s[1..];
    }
  }

  /** Position of the first occurrence of `x` in `s`. */
  function FirstIndex(s: seq<string>, x: string): (i: nat)
    requires x in s
    ensures i < |s| && s[i] == x
    ensures x !in s[..i]
  {
    if s[0] == x then 0
    else
      var j := FirstIndex(s[1..], x);
      assert s[..j + 1] == [s[0]] + s[1..][..j];
      1 + j
  }

  /** A position holding `x` with no earlier `x` is the first index of `x`. */
  lemma FirstIndexUnique(s: seq<string>, x: string, i: nat)
    requires i < |s| && s[i] == x && x !in s[..i]
    ensures FirstIndex(s, x) == i
  {
    var f := FirstIndex(s, x);
    assert forall k :: 0 <= k < i ==> s[..i][k] == s[k];
    assert forall k :: 0 <= k < f ==> s[..f][k] == s[k];
  }

  /** Appending never moves the first occurrence of a value already present. */
  lemma FirstIndexOfPrefix(s: seq<string>, t: seq<string>, x: string)
    requires x in s
    ensures FirstIndex(s + t, x) == FirstIndex(s, x)
  {
    var i := FirstIndex(s, x);
    assert (s + t)[..i] == s[..i];
    FirstIndexUnique(s + t, x, i);
  }

  /**
   * The distinct values of `s` in order of first occurrence: the iteration
   * order of a Counter built from `s`.
   */
  function Keys(s: seq<string>): (k: seq<string>)
    ensures forall x :: x in k <==> x in s
  {
    if s == [] then []
    else
      var p := s[..|s| - 1];
      assert s == p + [s[|s| - 1]];
      var k := Keys(p);
      if s[|s| - 1] in k then k else k + [s[|s| - 1]]
  }

  /** Every value of `k` occurs in `s`, and `k` lists them by increasing first index. */
  ghost predicate InOccurrenceOrder(s: seq<string>, k: seq<string>)
  {
    (forall x :: x in k ==> x in s) &&
    forall i, j :: 0 <= i < j < |k| ==>
      k[i] in s && k[j] in s && FirstIndex(s, k[i]) < FirstIndex(s, k[j])
  }

  lemma {:induction false} KeysInOccurrenceOrder(s: seq<string>)
    ensures InOccurrenceOrder(s, Keys(s))
  {
    if s != [] {
      var p := s[..|s| - 1];
      var y := s[|s| - 1];
      assert s == p + [y];
      KeysInOccurrenceOrder(p);
      forall x | x in p
        ensures FirstIndex(s, x) == FirstIndex(p, x)
      {
        FirstIndexOfPrefix(p, [y], x);
      }
      var k := Keys(p);
      if y !in k {
        assert s[..|p|] == p;
        FirstIndexUnique(s, y, |p|);
        var k' := k + [y];
        forall i, j | 0 <= i < j < |k'|
          ensures k'[i] in s && k'[j] in s && FirstIndex(s, k'[i]) < FirstIndex(s, k'[j])
        {
          if j < |k| {
            assert k'[i] == k[i] && k'[j] == k[j];
          } else {
            assert k'[i] == k[i] && k[i] in p;
          }
        }
      }
    }
  }

  /**
   * `a` ranks strictly ahead of `b` in `most_common`: a higher count, or an
   * equal count and an earlier first occurrence.
   */
  ghost predicate Before(s: seq<string>, a: string, b: string)
  {
    a in s && b in s &&
    (CountOf(s, a) > CountOf(s, b) ||
     (CountOf(s, a) == CountOf(s, b) && FirstIndex(s, a) < FirstIndex(s, b)))
  }

  /** Index of the first key whose count is maximal. */
  function LeftmostMax(keys: seq<string>, s: seq<string>): (i: nat)
    requires |keys| > 0
    ensures i < |keys|
    ensures forall j :: 0 <= j < |keys| ==> CountOf(s, keys[j]) <= CountOf(s, keys[i])
    ensures forall j :: 0 <= j < i ==> CountOf(s, keys[j]) < CountOf(s, keys[i])
  {
    if |keys| == 1 then 0
    else
      var k := LeftmostMax(keys[1..], s) + 1;
      if CountOf(s, keys[0]) >= CountOf(s, keys[k]) then 0 else k
  }

  /**
   * The keys stably sorted by descending count in `s`: repeatedly take the
   * earliest key of maximal count.
   */
  function Rank(keys: seq<string>, s: seq<string>): (r: seq<string>)
    ensures |r| == |keys|
    ensures forall x :: x in r <==> x in keys
    ensures multiset(r) == multiset(keys)
    decreases |keys|
  {
    if |keys| == 0 then []
    else
      var i := LeftmostMax(keys, s);
      var rest := keys[..i] + keys[i + 1..];
      assert keys == keys[..i] + [keys[i]] + keys[i + 1..];
      assert multiset(keys) == multiset(rest) + multiset{keys[i]};
      [keys[i]] + Rank(rest, s)
  }

  /** Every element of `r` ranks strictly ahead of every later one. */
  ghost predicate SortedByRank(s: seq<string>, r: seq<string>)
  {
    forall i, j :: 0 <= i < j < |r| ==> Before(s, r[i], r[j])
  }

  /** Removing one key keeps the rest in occurrence order. */
  lemma RemovePreservesOrder(s: seq<string>, keys: seq<string>, i: nat)
    requires InOccurrenceOrder(s, keys) && i < |keys|
    ensures InOccurrenceOrder(s, keys[..i] + keys[i + 1..])
  {
    var rest := keys[..i] + keys[i + 1..];
    assert forall a :: 0 <= a < i ==> rest[a] == keys[a];
    assert forall a :: i <= a < |rest| ==> rest[a] == keys[a + 1];
    forall x | x in rest ensures x in s {
      assert x in keys;
    }
  }

  /** The leftmost key of maximal count ranks ahead of every other key. */
  lemma LeftmostMaxRanksFirst(s: seq<string>, keys: seq<string>)
    requires InOccurrenceOrder(s, keys) && |keys| > 0
    ensures var i := LeftmostMax(keys, s);
      forall x :: x in keys[..i] + keys[i + 1..] ==> Before(s, keys[i], x)
  {
    var i := LeftmostMax(keys, s);
    forall j | 0 <= j < |keys| && j != i ensures Before(s, keys[i], keys[j]) {
      if j < i {
        assert keys[j] in s && keys[i] in s;
      } else {
        assert keys[i] in s && keys[j] in s && FirstIndex(s, keys[i]) < FirstIndex(s, keys[j]);
      }
    }
    forall x | x in keys[..i] + keys[i + 1..] ensures Before(s, keys[i], x) {
      if x in keys[..i] {
        var a :| 0 <= a < i && keys[..i][a] == x;
        assert keys[a] == x;
      } else {
        var a :| 0 <= a < |keys[i + 1..]| && keys[i + 1..][a] == x;
        assert keys[a + i + 1] == x;
      }
    }
  }

  /** Putting in front a value that ranks ahead of all of a sorted list keeps it sorted. */
  lemma ConsSorted(s: seq<string>, h: string, t: seq<string>)
    requires SortedByRank(s, t)
    requires forall x :: x in t ==> Before(s, h, x)
    ensures SortedByRank(s, [h] + t)
  {
    var r := [h] + t;
    forall a, b | 0 <= a < b < |r| ensures Before(s, r[a], r[b]) {
      assert r[b] == t[b - 1] && t[b - 1] in t;
      if a > 0 {
        assert r[a] == t[a - 1];
      }
    }
  }

  lemma {:induction false} RankSorted(keys: seq<string>, s: seq<string>)
    requires InOccurrenceOrder(s, keys)
    ensures SortedByRank(s, Rank(keys, s))
    decreases |keys|
  {
    if |keys| > 0 {
      var i := LeftmostMax(keys, s);
      var rest := keys[..i] + keys[i + 1..];
      RemovePreservesOrder(s, keys, i);
      RankSorted(rest, s);
      LeftmostMaxRanksFirst(s, keys);
      ConsSorted(s, keys[i], Rank(rest, s));
    }
  }

  /** Python's `[k for k, _ in Counter(s).most_common(n)]`. */
  function MostCommon(s: seq<string>, n: nat): (r: seq<string>)
    ensures |r| <= n
    ensures forall x :: x in r ==> x in s
    ensures s != [] && n > 0 ==> r != []
  {
    var ranked := Rank(Keys(s), s);
    ranked[..if n < |ranked| then n else |ranked|]
  }

  /**
   * `r` is the top-`n` ranking of the values of `s`: at most `n` values, all
   * from `s`, in rank order, shorter than `n` only when every value of `s` is
   * in it, and no value left out ranks ahead of one that was taken.
   */
  ghost predicate IsTopRanking(s: seq<string>, r: seq<string>, n: nat)
  {
    |r| <= n &&
    (forall x :: x in r ==> x in s) &&
    (|r| < n ==> forall x :: x in s ==> x in r) &&
    SortedByRank(s, r) &&
    (forall x, i :: 0 <= i < |r| && x in s && x !in r ==> Before(s, r[i], x))
  }

  lemma MostCommonIsTopRanking(s: seq<string>, n: nat)
    ensures IsTopRanking(s, MostCommon(s, n), n)
  {
    var keys := Keys(s);
    KeysInOccurrenceOrder(s);
    var ranked := Rank(keys, s);
    RankSorted(keys, s);
    var m := if n < |ranked| then n else |ranked|;
    var r := ranked[..m];
    assert r == MostCommon(s, n);
    forall x | x in r ensures x in s {
      assert x in ranked;
    }
    if |r| < n {
      assert r == ranked;
    }
    forall x, i | 0 <= i < |r| && x in s && x !in r ensures Before(s, r[i], x) {
      assert x in ranked;
      var j :| 0 <= j < |ranked| && ranked[j] == x;
      assert forall k :: 0 <= k < m ==> r[k] == ranked[k];
      assert r[i] == ranked[i];
    }
  }

  /** Ranking is a strict total order on the values of `s`. */
  lemma BeforeTotal(s: seq<string>, a: string, b: string)
    requires a in s && b in s && a != b
    ensures Before(s, a, b) || Before(s, b, a)
  {
    assert s[FirstIndex(s, a)] == a && s[FirstIndex(s, b)] == b;
  }

  /**
   * Each element of a top ranking is new, and ranks ahead of every value of
   * `s` not listed before it.
   */
  lemma TopRankingElementIsMax(s: seq<string>, r: seq<string>, n: nat, c: nat)
    requires IsTopRanking(s, r, n) && c < |r|
    ensures r[c] in s && r[c] !in r[..c]
    ensures forall x :: x in s && x !in r[..c] && x != r[c] ==> Before(s, r[c], x)
  {
    assert r[c] in r;
    assert forall k :: 0 <= k < c ==> r[..c][k] == r[k];
    forall x | x in s && x !in r[..c] && x != r[c] ensures Before(s, r[c], x) {
      if x in r {
        var j :| 0 <= j < |r| && r[j] == x;
        assert j > c;
      }
    }
  }

  lemma {:induction false} TopRankingPrefixesAgree(s: seq<string>, r1: seq<string>, r2: seq<string>, n: nat, k: nat)
    requires IsTopRanking(s, r1, n) && IsTopRanking(s, r2, n)
    requires k <= |r1| && k <= |r2|
    ensures r1[..k] == r2[..k]
  {
    if k > 0 {
      var c := k - 1;
      TopRankingPrefixesAgree(s, r1, r2, n, c);
      TopRankingElementIsMax(s, r1, n, c);
      TopRankingElementIsMax(s, r2, n, c);
      // Were they different, each would rank ahead of the other.
      assert r1[c] == r2[c];
      assert r1[..k] == r1[..c] + [r1[c]] && r2[..k] == r2[..c] + [r2[c]];
    }
  }

  ghost predicate Distinct(a: seq<string>)
  {
    forall i, j :: 0 <= i < j < |a| ==> a[i] != a[j]
  }

  lemma {:induction false} DistinctCard(a: seq<string>)
    requires Distinct(a)
    ensures |set x | x in a| == |a|
  {
    if a != [] {
      DistinctCard(a[1..]);
      assert (set x | x in a) == (set x | x in a[1..]) + {a[0]};
      assert a[0] !in a[1..];
    }
  }

  lemma {:induction false} SetCardAtMostLength(b: seq<string>)
    ensures |set x | x in b| <= |b|
  {
    if b != [] {
      SetCardAtMostLength(b[1..]);
      assert (set x | x in b) == (set x | x in b[1..]) + {b[0]};
    }
  }

  /** A sequence without repeats drawn from `b` is no longer than `b`. */
  lemma DistinctWithin(a: seq<string>, b: seq<string>)
    requires Distinct(a) && forall x :: x in a ==> x in b
    ensures |a| <= |b|
  {
    var sa, sb := set x | x in a, set x | x in b;
    DistinctCard(a);
    SetCardAtMostLength(b);
    assert sa <= sb;
    assert sb * sa == sa && sa - sb == {} && sb + sa == sb;
    assert |sb - sa| + |sa| == |sb|;
  }

  /** A top ranking lists no value twice. */
  lemma TopRankingDistinct(s: seq<string>, r: seq<string>, n: nat)
    requires IsTopRanking(s, r, n)
    ensures Distinct(r)
  {
    forall i, j | 0 <= i < j < |r| ensures r[i] != r[j] {
      assert Before(s, r[i], r[j]);
    }
  }

  /** Two top rankings of the same values have the same length. */
  lemma TopRankingLengths(s: seq<string>, r1: seq<string>, r2: seq<string>, n: nat)
    requires IsTopRanking(s, r1, n) && IsTopRanking(s, r2, n)
    ensures |r1| <= |r2|
  {
    if |r2| < n {
      TopRankingDistinct(s, r1, n);
      DistinctWithin(r1, r2);
    }
  }

  /** The top-`n` ranking is unique, so `IsTopRanking` pins `most_common` down completely. */
  lemma TopRankingUnique(s: seq<string>, r1: seq<string>, r2: seq<string>, n: nat)
    requires IsTopRanking(s, r1, n) && IsTopRanking(s, r2, n)
    ensures r1 == r2
  {
    TopRankingLengths(s, r1, r2, n);
    TopRankingLengths(s, r2, r1, n);
    TopRankingPrefixesAgree(s, r1, r2, n, |r1|);
    assert r1 == r1[..|r1|] && r2 == r2[..|r2|];
  }

  /** Counts and first occurrences in the pool `a, a, b, b, c`. */
  lemma ExampleOrder()
    ensures var s := ["a", "a", "b", "b", "c"];
      Before(s, "a", "b") && Before(s, "a", "c") && Before(s, "b", "c")
  {
    var s := ["a", "a", "b", "b", "c"];
    assert CountOf(s, "a") == 2 && CountOf(s, "b") == 2 && CountOf(s, "c") == 1 by {
      assert s[1..][1..] == ["b", "b", "c"];
    }
    assert FirstIndex(s, "a") == 0 && FirstIndex(s, "b") == 2;
  }
  /** The tie between `a` and `b` goes to `a`, which occurs first. */
  lemma TieBreakExample()
    ensures MostCommon(["a", "a", "b", "b", "c"], 3) == ["a", "b", "c"]
  {
    var s := ["a", "a", "b", "b", "c"];
    var r := ["a", "b", "c"];
    ExampleOrder();
    assert SortedByRank(s, r) by {
      forall i, j | 0 <= i < j < 3 ensures Before(s, r[i], r[j]) {
        assert (i == 0 && j == 1) || (i == 0 && j == 2) || (i == 1 && j == 2);
      }
    }
    assert forall x :: x in s ==> x in r by {
      forall x | x in s ensures x in r {
        var k :| 0 <= k < 5 && s[k] == x;
        assert k == 0 || k == 1 || k == 2 || k == 3 || k == 4;
      }
    }
    assert IsTopRanking(s, r, 3);
    MostCommonIsTopRanking(s, 3);
    TopRankingUnique(s, MostCommon(s, 3), r, 3);
  }
}
