/**
 * `Array.prototype.sort` with a comparator, as the provider uses it. A
 * comparator c is read as the relation leq(a, b) := c(a, b) <= 0 ("a may
 * stay before b"). For a consistent comparator that relation is a total
 * preorder, and the sort below, an insertion sort that keeps orders the
 * comparator calls equal in their original order, is one of the results
 * the engine may return.
 */
module Sorting {
  import opened Greedy

  ghost predicate TotalPreorder<T(!new)>(leq: (T, T) -> bool) {
    && (forall a, b :: leq(a, b) || leq(b, a))
    && (forall a, b, c :: leq(a, b) && leq(b, c) ==> leq(a, c))
  }

  predicate SortedBy<T>(s: seq<T>, leq: (T, T) -> bool) {
    forall i, j :: 0 <= i < j < |s| ==> leq(s[i], s[j])
  }

  /** Puts x before the first element it may precede. */
  function Insert<T>(x: T, s: seq<T>, leq: (T, T) -> bool): (r: seq<T>)
    ensures |r| == |s| + 1
    ensures multiset(r) == multiset(s) + multiset{x}
  {
    if |s| == 0 then [x]
    else if leq(x, s[0]) then [x] + s
    else
      assert s == [s[0]] + s[1..];
      [s[0]] + Insert(x, s[1..], leq)
  }

  function Sort<T>(s: seq<T>, leq: (T, T) -> bool): (r: seq<T>)
    ensures |r| == |s|
    ensures multiset(r) == multiset(s)
  {
    if |s| == 0 then []
    else
      assert s == [s[0]] + s[1..];
      Insert(s[0], Sort(s[1..], leq), leq)
  }

  lemma {:induction false} InsertSorted<T(!new)>(x: T, s: seq<T>, leq: (T, T) -> bool)
    requires TotalPreorder(leq)
    requires SortedBy(s, leq)
    ensures SortedBy(Insert(x, s, leq), leq)
  {
    if |s| > 0 && !leq(x, s[0]) {
      var t := Insert(x, s[1..], leq);
      assert SortedBy(s[1..], leq) by {
        forall i, j | 0 <= i < j < |s| - 1 ensures leq(s[1..][i], s[1..][j]) {
          assert s[1..][i] == s[i + 1] && s[1..][j] == s[j + 1];
        }
      }
      InsertSorted(x, s[1..], leq);
      assert leq(s[0], x);
      forall y | y in multiset(t) ensures leq(s[0], y) {
        assert y in multiset(s[1..]) + multiset{x};
        if y in multiset(s[1..]) {
          var j :| 0 <= j < |s[1..]| && s[1..][j] == y;
          assert s[j + 1] == y;
        }
      }
      var r := [s[0]] + t;
      forall i, j | 0 <= i < j < |r| ensures leq(r[i], r[j]) {
        if i == 0 {
          assert r[j] == t[j - 1];
          assert t[j - 1] in multiset(t);
        } else {
          assert r[i] == t[i - 1] && r[j] == t[j - 1];
        }
      }
    }
  }

  /** The sort puts the list in comparator order (and, by its contract, keeps its elements). */
  lemma {:induction false} SortSorted<T(!new)>(s: seq<T>, leq: (T, T) -> bool)
    requires TotalPreorder(leq)
    ensures SortedBy(Sort(s, leq), leq)
  {
    if |s| > 0 {
      SortSorted(s[1..], leq);
      InsertSorted(s[0], Sort(s[1..], leq), leq);
    }
  }

  /** `.sort(c).slice(0, n)`: the first n elements in comparator order. */
  function SortTake<T>(s: seq<T>, leq: (T, T) -> bool, n: nat): seq<T> {
    Sort(s, leq)[..Min(n, |s|)]
  }

  /**
   * Sorting and then keeping the first n keeps min(n, |s|) elements of s,
   * in comparator order, and every element left out may come after every
   * element kept.
   */
  lemma SortTakeSpec<T(!new)>(s: seq<T>, leq: (T, T) -> bool, n: nat)
    requires TotalPreorder(leq)
    ensures var r := SortTake(s, leq, n);
      && |r| == Min(n, |s|)
      && multiset(r) <= multiset(s)
      && SortedBy(r, leq)
      && forall x, i :: x in multiset(s) - multiset(r) && 0 <= i < |r| ==> leq(r[i], x)
  {
    var t := Sort(s, leq);
    var k := Min(n, |s|);
    var r := t[..k];
    SortSorted(s, leq);
    assert t == r + t[k..];
    assert multiset(t) == multiset(r) + multiset(t[k..]);
    forall x, i | x in multiset(s) - multiset(r) && 0 <= i < |r| ensures leq(r[i], x) {
      assert x in multiset(t[k..]);
      var j :| 0 <= j < |t[k..]| && t[k..][j] == x;
      assert t[k + j] == x && r[i] == t[i];
    }
  }
}
