/** `Array.prototype.filter`, which the provider applies to every list it reads. */
module Seqs {

  /** The elements of s that satisfy p, in the order of s. */
  function Filter<T>(s: seq<T>, p: T -> bool): (r: seq<T>)
    ensures |r| <= |s|
  {
    if |s| == 0 then []
    else
      var rest := Filter(s[1..], p);
      if p(s[0]) then [s[0]] + rest else rest
  }

  /**
   * The filter keeps every element that satisfies p, and nothing else: its
   * elements are elements of s satisfying p, and every element of s
   * satisfying p is one of them.
   */
  lemma {:induction false} FilterSpec<T>(s: seq<T>, p: T -> bool)
    ensures var r := Filter(s, p);
      && (forall i :: 0 <= i < |r| ==> r[i] in s && p(r[i]))
      && (forall i :: 0 <= i < |s| && p(s[i]) ==> s[i] in r)
  {
    if |s| > 0 {
      FilterSpec(s[1..], p);
      assert s == [s[0]] + s[1..];
      var rest := Filter(s[1..], p);
      var r := Filter(s, p);
      forall i | 0 <= i < |s| && p(s[i]) ensures s[i] in r {
        if i > 0 {
          assert s[i] == s[1..][i - 1];
        }
      }
      forall i | 0 <= i < |rest| ensures rest[i] in s && p(rest[i]) {
        var j :| 0 <= j < |s[1..]| && s[1..][j] == rest[i];
        assert s[j + 1] == rest[i];
      }
      if p(s[0]) {
        assert r == [s[0]] + rest;
        forall i | 0 <= i < |r| ensures r[i] in s && p(r[i]) {
          if i > 0 {
            assert r[i] == rest[i - 1];
          }
        }
      } else {
        assert r == rest;
      }
    }
  }

  /** Each element satisfying p occurs in the filter exactly as often as in s; any other, never. */
  lemma {:induction false} FilterCount<T>(s: seq<T>, p: T -> bool)
    ensures forall x :: multiset(Filter(s, p))[x] == if p(x) then multiset(s)[x] else 0
  {
    if |s| > 0 {
      FilterCount(s[1..], p);
      var rest := Filter(s[1..], p);
      assert s == [s[0]] + s[1..];
      assert multiset(s) == multiset([s[0]]) + multiset(s[1..]);
      if p(s[0]) {
        assert multiset(Filter(s, p)) == multiset([s[0]]) + multiset(rest);
      } else {
        assert Filter(s, p) == rest;
      }
    }
  }

  /** Whatever the filter keeps is in s and satisfies p. */
  lemma FilterMember<T>(s: seq<T>, p: T -> bool, x: T)
    requires x in Filter(s, p)
    ensures x in s && p(x)
  {
    FilterCount(s, p);
    assert multiset(Filter(s, p))[x] > 0;
  }

  /** The indices k, k+1, ... of s whose elements satisfy p, in increasing order. */
  ghost function PassingIndices<T>(s: seq<T>, p: T -> bool, k: nat): seq<nat>
    requires k <= |s|
    decreases |s| - k
  {
    if k == |s| then []
    else (if p(s[k]) then [k] else []) + PassingIndices(s, p, k + 1)
  }

  /**
   * r is the subsequence of s at the indices idx, which are in increasing
   * order and are exactly the indices from k on whose elements satisfy p.
   */
  ghost predicate PicksPassing<T>(s: seq<T>, p: T -> bool, k: nat, r: seq<T>, idx: seq<nat>) {
    && |idx| == |r|
    && (forall j :: 0 <= j < |idx| ==> k <= idx[j] < |s| && p(s[idx[j]]) && r[j] == s[idx[j]])
    && (forall j1, j2 :: 0 <= j1 < j2 < |idx| ==> idx[j1] < idx[j2])
    && (forall i :: k <= i < |s| && p(s[i]) ==> i in idx)
  }

  /**
   * The filter keeps the order of s: it is the subsequence of s at exactly
   * the indices whose elements satisfy p, taken in increasing order.
   */
  lemma {:induction false} FilterSubsequence<T>(s: seq<T>, p: T -> bool, k: nat)
    requires k <= |s|
    ensures PicksPassing(s, p, k, Filter(s[k..], p), PassingIndices(s, p, k))
    decreases |s| - k
  {
    if k < |s| {
      FilterSubsequence(s, p, k + 1);
      FilterStep(s, p, k);
      var rest, tail := Filter(s[k + 1..], p), PassingIndices(s, p, k + 1);
      if p(s[k]) {
        PicksPassingTake(s, p, k, Filter(s[k..], p), PassingIndices(s, p, k), rest, tail);
      } else {
        PicksPassingSkip(s, p, k, Filter(s[k..], p), PassingIndices(s, p, k), rest, tail);
      }
    } else {
      assert Filter(s[k..], p) == [];
    }
  }

  /** The filter of s from k on: s[k] when it satisfies p, then the filter from k + 1 on. */
  lemma FilterStep<T>(s: seq<T>, p: T -> bool, k: nat)
    requires k < |s|
    ensures Filter(s[k..], p) == if p(s[k]) then [s[k]] + Filter(s[k + 1..], p) else Filter(s[k + 1..], p)
  {
    assert s[k..][1..] == s[k + 1..] && s[k..][0] == s[k];
  }

  /** The filter is the subsequence of s at exactly the indices whose elements satisfy p, in order. */
  lemma FilterOrder<T>(s: seq<T>, p: T -> bool)
    ensures PicksPassing(s, p, 0, Filter(s, p), PassingIndices(s, p, 0))
  {
    FilterSubsequence(s, p, 0);
    assert s[0..] == s;
  }

  /** An element that satisfies p goes in front of the subsequence after it. */
  lemma PicksPassingTake<T>(s: seq<T>, p: T -> bool, k: nat, r: seq<T>, idx: seq<nat>, rest: seq<T>, tail: seq<nat>)
    requires k < |s| && p(s[k]) && PicksPassing(s, p, k + 1, rest, tail)
    requires r == [s[k]] + rest && idx == [k] + tail
    ensures PicksPassing(s, p, k, r, idx)
  {
    forall j | 0 <= j < |idx| ensures k <= idx[j] < |s| && p(s[idx[j]]) && r[j] == s[idx[j]] {
      if j > 0 {
        assert idx[j] == tail[j - 1] && r[j] == rest[j - 1];
      }
    }
    forall j1, j2 | 0 <= j1 < j2 < |idx| ensures idx[j1] < idx[j2] {
      assert idx[j2] == tail[j2 - 1];
      if j1 > 0 {
        assert idx[j1] == tail[j1 - 1];
      }
    }
    forall i | k <= i < |s| && p(s[i]) ensures i in idx {
      if i > k {
        assert i in tail;
      }
    }
  }

  /** An element that does not satisfy p is skipped. */
  lemma PicksPassingSkip<T>(s: seq<T>, p: T -> bool, k: nat, r: seq<T>, idx: seq<nat>, rest: seq<T>, tail: seq<nat>)
    requires k < |s| && !p(s[k]) && PicksPassing(s, p, k + 1, rest, tail)
    requires r == rest && idx == tail
    ensures PicksPassing(s, p, k, r, idx)
  {
  }

  /** Filtering part by part is filtering the whole. */
  lemma {:induction false} FilterAppend<T>(a: seq<T>, b: seq<T>, p: T -> bool)
    ensures Filter(a + b, p) == Filter(a, p) + Filter(b, p)
  {
    if |a| > 0 {
      assert (a + b)[1..] == a[1..] + b;
      FilterAppend(a[1..], b, p);
    } else {
      assert a + b == b;
    }
  }

  /** The condition that both p and q hold. */
  function Both<T>(p: T -> bool, q: T -> bool): T -> bool {
    x => p(x) && q(x)
  }

  /** Two filters one after the other are one filter by both conditions. */
  lemma {:induction false} FilterFilter<T>(s: seq<T>, p: T -> bool, q: T -> bool)
    ensures Filter(Filter(s, p), q) == Filter(s, Both(p, q))
  {
    if |s| > 0 {
      FilterFilter(s[1..], p, q);
      if p(s[0]) {
        assert ([s[0]] + Filter(s[1..], p))[1..] == Filter(s[1..], p);
      }
    }
  }
}
