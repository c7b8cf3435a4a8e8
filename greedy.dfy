/**
 * The greedy walk that the provider runs over a list of orders (choosing
 * bZx lend orders, choosing Augur sell orders, splitting a borrow amount
 * across lend orders): keep an
 * amount still to take, take min(order amount, amount still to take) from
 * each order in turn, and stop at the first order where that is zero.
 */
module Greedy {

  function Min(a: nat, b: nat): nat {
    if a <= b then a else b
  }

  function Sum(s: seq<nat>): nat {
    if |s| == 0 then 0 else s[0] + Sum(s[1..])
  }

  /** The sum of the amounts of a list of orders. */
  function AmountSum<T>(s: seq<T>, amt: T -> nat): nat {
    if |s| == 0 then 0 else amt(s[0]) + AmountSum(s[1..], amt)
  }

  predicate AllPositive<T>(s: seq<T>, amt: T -> nat) {
    forall i :: 0 <= i < |s| ==> amt(s[i]) > 0
  }

  lemma {:induction false} SumAppend(a: seq<nat>, b: seq<nat>)
    ensures Sum(a + b) == Sum(a) + Sum(b)
  {
    if |a| == 0 {
      assert a + b == b;
    } else {
      assert (a + b)[1..] == a[1..] + b;
      SumAppend(a[1..], b);
    }
  }

  lemma {:induction false} AmountSumAppend<T>(a: seq<T>, b: seq<T>, amt: T -> nat)
    ensures AmountSum(a + b, amt) == AmountSum(a, amt) + AmountSum(b, amt)
  {
    if |a| == 0 {
      assert a + b == b;
    } else {
      assert (a + b)[1..] == a[1..] + b;
      AmountSumAppend(a[1..], b, amt);
    }
  }

  /** A longer prefix never has a smaller sum. */
  lemma AmountSumPrefixMonotone<T>(s: seq<T>, amt: T -> nat, j: nat, k: nat)
    requires j <= k <= |s|
    ensures AmountSum(s[..j], amt) <= AmountSum(s[..k], amt)
  {
    assert s[..k] == s[..j] + s[j..k];
    AmountSumAppend(s[..j], s[j..k], amt);
  }

  /**
   * The fills of the walk: the i-th element is what is taken from s[i].
   * The walk ends with the list, or at the first order whose fill would be
   * zero (an order of amount zero, or nothing left to take).
   */
  function Fills<T>(s: seq<T>, amt: T -> nat, rem: nat): (f: seq<nat>)
    ensures |f| <= |s|
    ensures Sum(f) <= rem
  {
    if |s| == 0 || Min(amt(s[0]), rem) == 0 then []
    else
      var m := Min(amt(s[0]), rem);
      var f := [m] + Fills(s[1..], amt, rem - m);
      assert f[1..] == Fills(s[1..], amt, rem - m);
      f
  }

  /** One step of the walk: a positive fill from the first order, then the walk of the rest. */
  lemma FillsStep<T>(s: seq<T>, amt: T -> nat, rem: nat)
    requires |s| > 0 && Min(amt(s[0]), rem) > 0
    ensures var m := Min(amt(s[0]), rem);
      Fills(s, amt, rem) == [m] + Fills(s[1..], amt, rem - m)
  {
  }

  /** Each fill is positive and at most its order's amount; every fill but the last takes the whole order. */
  lemma {:induction false} FillsBounded<T>(s: seq<T>, amt: T -> nat, rem: nat)
    ensures var f := Fills(s, amt, rem);
      && (forall i :: 0 <= i < |f| ==> 0 < f[i] <= amt(s[i]))
      && (forall i :: 0 <= i < |f| - 1 ==> f[i] == amt(s[i]))
  {
    if |s| > 0 && Min(amt(s[0]), rem) > 0 {
      var m := Min(amt(s[0]), rem);
      var f := Fills(s, amt, rem);
      var g := Fills(s[1..], amt, rem - m);
      FillsStep(s, amt, rem);
      FillsBounded(s[1..], amt, rem - m);
      if |g| > 0 {
        assert m == amt(s[0]);
      }
      forall i | 0 < i < |f| ensures f[i] == g[i - 1] && s[i] == s[1..][i - 1] {
      }
    }
  }

  /** The fills add up to the amount to take or to the orders walked over, whichever is less. */
  lemma {:induction false} FillsTotal<T>(s: seq<T>, amt: T -> nat, rem: nat)
    ensures var f := Fills(s, amt, rem);
      Sum(f) == Min(rem, AmountSum(s[..|f|], amt))
  {
    if |s| > 0 && Min(amt(s[0]), rem) > 0 {
      var m := Min(amt(s[0]), rem);
      var f := Fills(s, amt, rem);
      var g := Fills(s[1..], amt, rem - m);
      FillsStep(s, amt, rem);
      FillsTotal(s[1..], amt, rem - m);
      assert f[1..] == g;
      assert s[..|f|][1..] == s[1..][..|g|];
      if m < amt(s[0]) {
        assert g == [];
      }
    }
  }

  /** The orders walked over before the last one do not cover the amount to take. */
  lemma {:induction false} FillsMinimal<T>(s: seq<T>, amt: T -> nat, rem: nat)
    ensures var f := Fills(s, amt, rem);
      |f| > 0 ==> AmountSum(s[..|f| - 1], amt) < rem
  {
    if |s| > 0 && Min(amt(s[0]), rem) > 0 {
      var m := Min(amt(s[0]), rem);
      var f := Fills(s, amt, rem);
      var g := Fills(s[1..], amt, rem - m);
      FillsStep(s, amt, rem);
      FillsMinimal(s[1..], amt, rem - m);
      if |g| > 0 {
        assert m == amt(s[0]);
        assert s[..|f| - 1][1..] == s[1..][..|g| - 1];
      }
    }
  }

  /** A walk that leaves something untaken stopped at the end of the list or at an order of amount zero. */
  lemma {:induction false} FillsStopped<T>(s: seq<T>, amt: T -> nat, rem: nat)
    ensures var f := Fills(s, amt, rem);
      Sum(f) < rem ==> |f| == |s| || amt(s[|f|]) == 0
  {
    if |s| > 0 && Min(amt(s[0]), rem) > 0 {
      var m := Min(amt(s[0]), rem);
      var f := Fills(s, amt, rem);
      var g := Fills(s[1..], amt, rem - m);
      FillsStep(s, amt, rem);
      FillsStopped(s[1..], amt, rem - m);
      assert f[1..] == g;
      if |f| < |s| {
        assert s[|f|] == s[1..][|g|];
      }
    }
  }

  /**
   * What the walk takes: each fill is positive and at most its order's
   * amount, every fill but the last is the whole order, the fills add up to
   * the amount to take or to all the orders walked over, whichever is less,
   * the orders before the last one walked over do not cover the amount, and
   * a walk that leaves something untaken stopped at the end of the list or
   * at an order of amount zero.
   */
  lemma FillsSpec<T>(s: seq<T>, amt: T -> nat, rem: nat)
    ensures var f := Fills(s, amt, rem);
      && (forall i :: 0 <= i < |f| ==> 0 < f[i] <= amt(s[i]))
      && (forall i :: 0 <= i < |f| - 1 ==> f[i] == amt(s[i]))
      && Sum(f) == Min(rem, AmountSum(s[..|f|], amt))
      && (|f| > 0 ==> AmountSum(s[..|f| - 1], amt) < rem)
      && (Sum(f) < rem ==> |f| == |s| || amt(s[|f|]) == 0)
  {
    FillsBounded(s, amt, rem);
    FillsTotal(s, amt, rem);
    FillsMinimal(s, amt, rem);
    FillsStopped(s, amt, rem);
  }

  /**
   * The orders a walk chooses, as `_findLendOrdersForCurrentMarket` returns
   * them: the prefix walked over when it covers the target exactly,
   * otherwise no order at all.
   */
  function Select<T>(s: seq<T>, amt: T -> nat, target: nat): (r: seq<T>)
    ensures |r| <= |s| && r == s[..|r|]
  {
    var f := Fills(s, amt, target);
    if Sum(f) == target then s[..|f|] else []
  }

  /** Some prefix of s whose orders all have a positive amount covers the target. */
  ghost predicate Coverable<T>(s: seq<T>, amt: T -> nat, target: nat) {
    exists k :: 0 <= k <= |s| && AllPositive(s[..k], amt) && AmountSum(s[..k], amt) >= target
  }

  /**
   * The choice is a prefix of the list made of orders with a positive
   * amount; a non-empty choice covers the target and would not without its
   * last order; and the choice is empty exactly when the target is zero or
   * no such prefix covers it.
   */
  lemma SelectSpec<T>(s: seq<T>, amt: T -> nat, target: nat)
    ensures var r := Select(s, amt, target);
      && r == s[..|r|]
      && AllPositive(r, amt)
      && (r != [] ==> AmountSum(r, amt) >= target > AmountSum(r[..|r| - 1], amt))
      && (r == [] <==> target == 0 || !Coverable(s, amt, target))
  {
    var f := Fills(s, amt, target);
    var k := |f|;
    var r := Select(s, amt, target);
    FillsSpec(s, amt, target);
    if Sum(f) == target {
      assert r == s[..k];
      assert AllPositive(r, amt) by {
        forall i | 0 <= i < |r| ensures amt(r[i]) > 0 {
          assert f[i] > 0;
        }
      }
      if target > 0 {
        assert k > 0;
        assert AmountSum(s[..k], amt) >= target;
        assert Coverable(s, amt, target);
        assert r[..|r| - 1] == s[..k - 1];
      } else {
        assert f == [];
      }
    } else {
      assert r == [];
      assert target > 0;
      if Coverable(s, amt, target) {
        var j :| 0 <= j <= |s| && AllPositive(s[..j], amt) && AmountSum(s[..j], amt) >= target;
        assert AmountSum(s[..k], amt) < target;
        if j <= k {
          AmountSumPrefixMonotone(s, amt, j, k);
          assert false;
        } else {
          assert false;
        }
      }
    }
  }

  /** Taking one more fill into the prefix adds that fill to its sum. */
  lemma SumPrefixStep(f: seq<nat>, i: nat)
    requires i < |f|
    ensures Sum(f[..i + 1]) == Sum(f[..i]) + f[i]
  {
    assert f[..i + 1] == f[..i] + [f[i]];
    SumAppend(f[..i], [f[i]]);
  }

  /**
   * The walk seen one order at a time: before order i the fills so far
   * take no more than the amount; order i is filled with min(its amount,
   * what is left) when the walk reaches it, and that is zero when the walk
   * stops there.
   */
  lemma {:induction false} FillsAt<T>(s: seq<T>, amt: T -> nat, rem: nat, i: nat)
    requires i <= |Fills(s, amt, rem)|
    ensures var f := Fills(s, amt, rem);
      && Sum(f[..i]) <= rem
      && (i < |f| ==> f[i] == Min(amt(s[i]), rem - Sum(f[..i])) > 0)
      && (i == |f| < |s| ==> Min(amt(s[i]), rem - Sum(f[..i])) == 0)
    decreases i
  {
    var f := Fills(s, amt, rem);
    if i == 0 {
      assert f[..0] == [];
    } else {
      var m := Min(amt(s[0]), rem);
      FillsStep(s, amt, rem);
      FillsAt(s[1..], amt, rem - m, i - 1);
      FillsAtShift(s, amt, rem, f, Fills(s[1..], amt, rem - m), i);
    }
  }

  /**
   * One turn of a loop that runs the walk over s with the fills f: at
   * order i, with what the first i fills leave, the fill is zero exactly
   * when the walk stops there, and otherwise it is the walk's i-th fill.
   */
  lemma FillsTurn<T>(s: seq<T>, amt: T -> nat, rem: nat, f: seq<nat>, i: nat)
    requires f == Fills(s, amt, rem) && i < |s| && i <= |f|
    ensures Sum(f[..i]) <= rem
    ensures var m := Min(amt(s[i]), rem - Sum(f[..i]));
      && (m == 0 <==> i == |f|)
      && (m > 0 ==> f[i] == m && Sum(f[..i + 1]) == Sum(f[..i]) + m)
  {
    FillsAt(s, amt, rem, i);
    if i < |f| {
      SumPrefixStep(f, i);
    }
  }

  /** FillsAt one order further on: the walk's first fill m put in front of the walk of the rest. */
  lemma FillsAtShift<T>(s: seq<T>, amt: T -> nat, rem: nat, f: seq<nat>, g: seq<nat>, i: nat)
    requires |s| > 0 && 0 < i <= |f| && |f| <= |s|
    requires var m := Min(amt(s[0]), rem);
      && m > 0 && f == [m] + g
      && Sum(g[..i - 1]) <= rem - m
      && (i - 1 < |g| ==> g[i - 1] == Min(amt(s[1..][i - 1]), rem - m - Sum(g[..i - 1])) > 0)
      && (i - 1 == |g| < |s[1..]| ==> Min(amt(s[1..][i - 1]), rem - m - Sum(g[..i - 1])) == 0)
    ensures && Sum(f[..i]) <= rem
      && (i < |f| ==> f[i] == Min(amt(s[i]), rem - Sum(f[..i])) > 0)
      && (i == |f| < |s| ==> Min(amt(s[i]), rem - Sum(f[..i])) == 0)
  {
    var m := Min(amt(s[0]), rem);
    assert f[..i] == [m] + g[..i - 1];
    SumAppend([m], g[..i - 1]);
    assert Sum(f[..i]) == m + Sum(g[..i - 1]);
    if i < |s| {
      assert s[1..][i - 1] == s[i];
    }
  }

  /**
   * Walking a chosen list again for the same target, as `_takeLendOrders`
   * does with the orders `_findLendOrdersForCurrentMarket` chose, takes
   * from every chosen order, the whole of each but the last, and exactly
   * the target in all.
   */
  lemma FillsOfSelection<T>(s: seq<T>, amt: T -> nat, target: nat)
    ensures var r := Select(s, amt, target);
            var f := Fills(r, amt, target);
      && |f| == |r|
      && (forall i :: 0 <= i < |r| ==> 0 < f[i] <= amt(r[i]))
      && (forall i :: 0 <= i < |r| - 1 ==> f[i] == amt(r[i]))
      && (r != [] ==> Sum(f) == target)
  {
    var r := Select(s, amt, target);
    SelectSpec(s, amt, target);
    FillsSpec(r, amt, target);
    var f := Fills(r, amt, target);
    if |f| < |r| {
      AmountSumPrefixMonotone(r, amt, |f|, |r| - 1);
    }
    assert r[..|f|] == r;
  }

  /** The leading orders of s with a positive amount. */
  function PositiveRun<T>(s: seq<T>, amt: T -> nat): (p: seq<T>)
    ensures |p| <= |s| && p == s[..|p|]
    ensures AllPositive(p, amt)
    ensures |p| < |s| ==> amt(s[|p|]) == 0
  {
    if |s| == 0 || amt(s[0]) == 0 then []
    else
      var q := PositiveRun(s[1..], amt);
      assert ([s[0]] + q)[1..] == q;
      [s[0]] + q
  }

  /** The positive runs of each outcome's orders, one after another. */
  function FlattenRuns<T>(outs: seq<seq<T>>, amt: T -> nat): seq<T> {
    if |outs| == 0 then [] else PositiveRun(outs[0], amt) + FlattenRuns(outs[1..], amt)
  }

  /** The orders a walk took and the amount it left untaken. */
  datatype Walk<T> = Walk(taken: seq<T>, left: nat)

  /**
   * The walk of `_findAugurLowestAskSellOrders` over the outcomes of a
   * market: the walk over each outcome's orders, where a zero fill ends
   * only that outcome, with what is left passed on to the next outcome.
   * Yields the orders taken and the amount left.
   */
  function WalkOutcomes<T>(outs: seq<seq<T>>, amt: T -> nat, rem: nat): (w: Walk<T>)
    ensures w.left <= rem
  {
    if |outs| == 0 then Walk([], rem)
    else
      var f := Fills(outs[0], amt, rem);
      var rest := WalkOutcomes(outs[1..], amt, rem - Sum(f));
      Walk(outs[0][..|f|] + rest.taken, rest.left)
  }

  /**
   * One turn of the outer loop of the Augur walk: with `before` taken from
   * the outcomes ahead of k and `left` to take, the walk over outcome k
   * fills `done`; then the orders taken grow by the first |done| orders of
   * outcome k, and the walk goes on from outcome k + 1 with what is left.
   */
  lemma WalkOutcomesAdvance<T>(outs: seq<seq<T>>, amt: T -> nat, target: nat, k: nat,
                               before: seq<T>, left: nat, done: seq<nat>, rem: nat)
    requires k < |outs|
    requires WalkOutcomes(outs, amt, target)
          == Walk(before + WalkOutcomes(outs[k..], amt, left).taken, WalkOutcomes(outs[k..], amt, left).left)
    requires Fills(outs[k], amt, left) == done && Sum(done) + rem == left
    ensures WalkOutcomes(outs, amt, target)
         == Walk((before + outs[k][..|done|]) + WalkOutcomes(outs[k + 1..], amt, rem).taken,
                 WalkOutcomes(outs[k + 1..], amt, rem).left)
  {
    assert outs[k..][0] == outs[k] && outs[k..][1..] == outs[k + 1..];
    var rest := WalkOutcomes(outs[k + 1..], amt, rem);
    assert WalkOutcomes(outs[k..], amt, left) == Walk(outs[k][..|done|] + rest.taken, rest.left);
    assert before + (outs[k][..|done|] + rest.taken) == (before + outs[k][..|done|]) + rest.taken;
  }

  /** The orders taken across outcomes when nothing is left to take, otherwise none. */
  function SelectAcross<T>(outs: seq<seq<T>>, amt: T -> nat, target: nat): seq<T> {
    var w := WalkOutcomes(outs, amt, target);
    if w.left == 0 then w.taken else []
  }

  /** The walk never looks past the first order of amount zero. */
  lemma {:induction false} FillsOnRun<T>(s: seq<T>, amt: T -> nat, rem: nat)
    ensures Fills(s, amt, rem) == Fills(PositiveRun(s, amt), amt, rem)
  {
    if |s| == 0 || amt(s[0]) == 0 || rem == 0 {
    } else {
      var p := PositiveRun(s, amt);
      var m := Min(amt(s[0]), rem);
      assert p[0] == s[0] && p[1..] == PositiveRun(s[1..], amt);
      FillsOnRun(s[1..], amt, rem - m);
    }
  }

  /**
   * Walking a run of positive orders and then more orders is walking the
   * run and then the rest with what the run left: a walk that stops inside
   * the run has nothing left.
   */
  lemma {:induction false} FillsAppendPositive<T>(p: seq<T>, x: seq<T>, amt: T -> nat, rem: nat)
    requires AllPositive(p, amt)
    ensures Fills(p + x, amt, rem) == Fills(p, amt, rem) + Fills(x, amt, rem - Sum(Fills(p, amt, rem)))
    decreases |p|, 1
  {
    if |p| == 0 {
      assert p + x == x;
    } else if rem == 0 {
      FillsNothingLeft(p + x, amt);
      FillsNothingLeft(p, amt);
      FillsNothingLeft(x, amt);
    } else {
      PositiveTail(p, amt);
      FillsAppendPositiveStep(p, x, amt, rem);
    }
  }

  /** The inductive step of FillsAppendPositive: the first order of the run takes a positive fill. */
  lemma {:induction false} FillsAppendPositiveStep<T>(p: seq<T>, x: seq<T>, amt: T -> nat, rem: nat)
    requires |p| > 0 && amt(p[0]) > 0 && rem > 0 && AllPositive(p[1..], amt)
    ensures Fills(p + x, amt, rem) == Fills(p, amt, rem) + Fills(x, amt, rem - Sum(Fills(p, amt, rem)))
    decreases |p|, 0
  {
    FillsAppendPositive(p[1..], x, amt, rem - Min(amt(p[0]), rem));
    FillsAppendFromTail(p, x, amt, rem);
  }

  /** The first fill of the run put in front of the joined walk of the rest of the run and the later orders. */
  lemma FillsAppendFromTail<T>(p: seq<T>, x: seq<T>, amt: T -> nat, rem: nat)
    requires |p| > 0 && amt(p[0]) > 0 && rem > 0
    requires var m := Min(amt(p[0]), rem);
      Fills(p[1..] + x, amt, rem - m)
      == Fills(p[1..], amt, rem - m) + Fills(x, amt, rem - m - Sum(Fills(p[1..], amt, rem - m)))
    ensures Fills(p + x, amt, rem) == Fills(p, amt, rem) + Fills(x, amt, rem - Sum(Fills(p, amt, rem)))
  {
    var m := Min(amt(p[0]), rem);
    var fq := Fills(p[1..], amt, rem - m);
    var fp := Fills(p, amt, rem);
    assert fp == [m] + fq by {
      FillsStep(p, amt, rem);
    }
    assert Sum(fp) == m + Sum(fq) by {
      SumAppend([m], fq);
      assert Sum([m]) == m;
    }
    var fx := Fills(x, amt, rem - Sum(fp));
    assert Fills(p + x, amt, rem) == [m] + (fq + fx) by {
      assert rem - m - Sum(fq) == rem - Sum(fp);
      FillsStepAppend(p, x, amt, rem);
    }
    JoinFirst(Fills(p + x, amt, rem), fp, m, fq, fx);
  }

  /** Gluing a first fill in front of two joined walks. */
  lemma JoinFirst(whole: seq<nat>, first: seq<nat>, m: nat, fq: seq<nat>, fx: seq<nat>)
    requires whole == [m] + (fq + fx) && first == [m] + fq
    ensures whole == first + fx
  {
  }

  lemma FillsNothingLeft<T>(s: seq<T>, amt: T -> nat)
    ensures Fills(s, amt, 0) == []
  {
  }

  lemma PositiveTail<T>(p: seq<T>, amt: T -> nat)
    requires |p| > 0 && AllPositive(p, amt)
    ensures AllPositive(p[1..], amt)
  {
    forall i | 0 <= i < |p| - 1 ensures amt(p[1..][i]) > 0 {
      assert p[1..][i] == p[i + 1];
    }
  }

  lemma FillsStepAppend<T>(p: seq<T>, x: seq<T>, amt: T -> nat, rem: nat)
    requires |p| > 0 && Min(amt(p[0]), rem) > 0
    ensures var m := Min(amt(p[0]), rem);
      Fills(p + x, amt, rem) == [m] + Fills(p[1..] + x, amt, rem - m)
  {
    assert (p + x)[0] == p[0];
    assert (p + x)[1..] == p[1..] + x;
    FillsStep(p + x, amt, rem);
  }

  /** The walk across outcomes is the plain walk over their positive runs laid end to end. */
  lemma {:induction false} WalkOutcomesFlat<T>(outs: seq<seq<T>>, amt: T -> nat, rem: nat)
    ensures var flat := FlattenRuns(outs, amt);
      var f := Fills(flat, amt, rem);
      WalkOutcomes(outs, amt, rem) == Walk(flat[..|f|], rem - Sum(f))
  {
    if |outs| > 0 {
      var o := outs[0];
      var p := PositiveRun(o, amt);
      var rest := FlattenRuns(outs[1..], amt);
      var f0 := Fills(o, amt, rem);
      var left := rem - Sum(f0);
      var f1 := Fills(rest, amt, left);
      WalkOutcomesFlat(outs[1..], amt, left);
      assert FlattenRuns(outs, amt) == p + rest;
      JoinRun(o, rest, amt, rem);
      SumAppend(f0, f1);
      if left == 0 {
        FillsNothingLeft(rest, amt);
      }
      var w := WalkOutcomes(outs, amt, rem);
      var w1 := WalkOutcomes(outs[1..], amt, left);
      var flat := FlattenRuns(outs, amt);
      var F := Fills(flat, amt, rem);
      assert w == Walk(o[..|f0|] + w1.taken, w1.left);
      FlatJoin(w.taken, flat, F, o, p, rest, f0, f1, w1.taken);
      assert w.left == rem - Sum(F);
    } else {
      assert FlattenRuns(outs, amt) == [];
    }
  }

  /**
   * The join of one outcome's walk with the walk over the later outcomes,
   * stated over the pieces: the orders taken from the outcome and from the
   * later runs are a prefix of the runs laid end to end, and what is left
   * is what their fills leave.
   */
  lemma FlatJoin<T>(taken: seq<T>, flat: seq<T>, f: seq<nat>, o: seq<T>, p: seq<T>, rest: seq<T>,
                    f0: seq<nat>, f1: seq<nat>, takenRest: seq<T>)
    requires flat == p + rest && f == f0 + f1
    requires |p| <= |o| && p == o[..|p|] && |f0| <= |p| && |f1| <= |rest|
    requires |f0| < |p| ==> f1 == []
    requires takenRest == rest[..|f1|]
    requires taken == o[..|f0|] + takenRest
    ensures taken == flat[..|f|]
  {
    RunPrefixes(o, p, rest, |f0|, f1, if |f0| < |p| then 0 else 1);
  }

  /**
   * The walk over an outcome's run followed by later orders: the fills of
   * the outcome, then the fills of the later orders with what is left, and
   * the walk stops inside the run only when nothing is left.
   */
  lemma JoinRun<T>(o: seq<T>, rest: seq<T>, amt: T -> nat, rem: nat)
    ensures var p := PositiveRun(o, amt);
      var f0 := Fills(o, amt, rem);
      && |f0| <= |p|
      && Fills(p + rest, amt, rem) == f0 + Fills(rest, amt, rem - Sum(f0))
      && (|f0| < |p| ==> Sum(f0) == rem)
  {
    var p := PositiveRun(o, amt);
    FillsOnRun(o, amt, rem);
    FillsAppendPositive(p, rest, amt, rem);
    FillsStopped(p, amt, rem);
  }

  /** How the orders taken from one outcome's run and from the later runs join up. */
  lemma RunPrefixes<T>(o: seq<T>, p: seq<T>, rest: seq<T>, k: nat, f1: seq<nat>, left: nat)
    requires |p| <= |o| && p == o[..|p|] && k <= |p|
    requires |f1| <= |rest|
    requires k < |p| ==> left == 0
    requires left == 0 ==> f1 == []
    ensures o[..k] + rest[..|f1|] == (p + rest)[..k + |f1|]
  {
    if k < |p| {
      assert f1 == [];
      assert (p + rest)[..k] == p[..k];
    } else {
      assert (p + rest)[..k + |f1|] == p + rest[..|f1|];
    }
  }

  /**
   * The Augur choice is the lend-order choice applied to the positive runs
   * of the outcomes laid end to end.
   */
  lemma SelectAcrossIsSelect<T>(outs: seq<seq<T>>, amt: T -> nat, target: nat)
    ensures SelectAcross(outs, amt, target) == Select(FlattenRuns(outs, amt), amt, target)
  {
    WalkOutcomesFlat(outs, amt, target);
  }
}
