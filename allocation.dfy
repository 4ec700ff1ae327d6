/**
 * Reference definitions for the bed partition of one hospital: the floor
 * pass that lifts every provisional share to at least one bed, and the two
 * reverse-order reconciliation walks that add or remove beds until the
 * allocation sums to the hospital's capacity.
 *
 * The walks are stated here pass by pass (a whole reverse pass, or the
 * partial pass that finishes the job); the step-by-step loops that the
 * seeder runs are in module Hospitals and are proved equal to these.
 */
module Allocation {

  /** Total number of beds in an allocation (summed from the last level). */
  function Sum(s: seq<int>): int
  {
    if s == [] then 0 else Sum(s[..|s| - 1]) + s[|s| - 1]
  }

  /** Every level holds at least one bed. */
  predicate AllPositive(s: seq<int>)
  {
    forall i :: 0 <= i < |s| ==> s[i] >= 1
  }

  // ---------------------------------------------------------------------
  // Floor pass

  /** The floor pass: a level whose provisional share is zero or negative gets one bed. */
  function Floored(s: seq<int>): (r: seq<int>)
    ensures |r| == |s| && AllPositive(r)
    ensures forall i :: 0 <= i < |s| && s[i] >= 1 ==> r[i] == s[i]
    ensures forall i :: 0 <= i < |s| && s[i] < 1 ==> r[i] == 1
  {
    seq(|s|, i requires 0 <= i < |s| => if s[i] <= 0 then 1 else s[i])
  }

  // ---------------------------------------------------------------------
  // Deficit: adding beds from the last level towards the first

  /** One reverse walk that stops after `d` increments: the last `d` levels gain a bed each. */
  function RaiseLast(s: seq<int>, d: nat): (r: seq<int>)
    requires d <= |s|
  {
    seq(|s|, i requires 0 <= i < |s| => if i >= |s| - d then s[i] + 1 else s[i])
  }

  lemma {:induction false} SumRaiseLast(s: seq<int>, d: nat)
    requires d <= |s|
    ensures Sum(RaiseLast(s, d)) == Sum(s) + d
    decreases |s|
  {
    if s != [] {
      var n := |s|;
      var init := s[..n - 1];
      var d' := if d > 0 then d - 1 else 0;
      assert RaiseLast(s, d)[..n - 1] == RaiseLast(init, d');
      SumRaiseLast(init, d');
    }
  }

  /** How many levels one pass of the increment walk raises: the deficit, or every level if there are fewer. */
  function PassRaised(s: seq<int>, deficit: int): (k: int)
    ensures k <= deficit && k <= |s|
  {
    if deficit <= |s| then deficit else |s|
  }

  /**
   * One reverse pass of the increment walk over an allocation short of
   * `total`: the last levels gain a bed each, as many as beds are missing or
   * all of them.
   */
  function IncrementPass(s: seq<int>, total: int): (r: seq<int>)
    requires |s| >= 1 && Sum(s) < total
    ensures |r| == |s| && Sum(s) < Sum(r) <= total
    ensures forall i :: 0 <= i < |s| ==> r[i] == s[i] || r[i] == s[i] + 1
  {
    SumRaiseLast(s, PassRaised(s, total - Sum(s)));
    RaiseLast(s, PassRaised(s, total - Sum(s)))
  }

  /**
   * The increment walk run to `total`: reverse passes while the allocation
   * is short of `total`; an allocation not short of `total` is kept.
   */
  function RaisedTo(s: seq<int>, total: int): (r: seq<int>)
    requires |s| >= 1
    ensures |r| == |s| && Sum(r) == (if Sum(s) < total then total else Sum(s))
    ensures AllPositive(s) ==> AllPositive(r)
    decreases total - Sum(s)
  {
    if Sum(s) < total then RaisedTo(IncrementPass(s, total), total) else s
  }

  // ---------------------------------------------------------------------
  // Surplus: removing beds from the last level towards the first, never below one

  /** Number of levels that hold more than one bed, i.e. that the decrement walk may lower. */
  function Above(s: seq<int>): nat
  {
    if s == [] then 0 else Above(s[..|s| - 1]) + (if s[|s| - 1] > 1 then 1 else 0)
  }

  /** One reverse walk that stops after `e` decrements: the last `e` levels above one lose a bed each. */
  function LowerLast(s: seq<int>, e: nat): (r: seq<int>)
    requires e <= Above(s)
    ensures |r| == |s| && Sum(r) == Sum(s) - e
    ensures AllPositive(s) ==> AllPositive(r)
    decreases |s|
  {
    if e == 0 then s
    else
      var n := |s|;
      if s[n - 1] > 1 then LowerLast(s[..n - 1], e - 1) + [s[n - 1] - 1]
      else LowerLast(s[..n - 1], e) + [s[n - 1]]
  }

  /** A partial decrement pass lowers a level by one bed, and only a level above one. */
  lemma {:induction false} LowerLastPointwise(s: seq<int>, e: nat)
    requires e <= Above(s)
    ensures forall i :: 0 <= i < |s| ==>
      LowerLast(s, e)[i] == s[i] || (s[i] > 1 && LowerLast(s, e)[i] == s[i] - 1)
    decreases |s|
  {
    if e > 0 {
      var n := |s|;
      LowerLastPointwise(s[..n - 1], if s[n - 1] > 1 then e - 1 else e);
    }
  }

  /** The decrement walk's step on one level: a bed is taken only from a level holding more than one. */
  function LowerOne(x: int): int
  {
    if x > 1 then x - 1 else x
  }

  /** A complete reverse pass of the decrement walk over `s`. */
  function LowerAll(s: seq<int>): (r: seq<int>)
  {
    seq(|s|, i requires 0 <= i < |s| => LowerOne(s[i]))
  }

  /** An allocation in which no level can be lowered has exactly one bed per level. */
  lemma {:induction false} NoneAboveSum(s: seq<int>)
    requires AllPositive(s) && Above(s) == 0
    ensures Sum(s) == |s|
    decreases |s|
  {
    if s != [] {
      NoneAboveSum(s[..|s| - 1]);
    }
  }

  /**
   * While the allocation holds more beds than one per level, some level is
   * above one, so a full pass of the decrement walk removes at least one bed.
   */
  lemma DecrementPassMakesProgress(s: seq<int>)
    requires AllPositive(s) && Sum(s) > |s|
    ensures Above(s) > 0
  {
    if Above(s) == 0 {
      NoneAboveSum(s);
    }
  }

  /** Widening a suffix by one level adds one lowerable level exactly when that level holds more than one bed. */
  lemma {:induction false} AboveFrom(t: seq<int>, i: int)
    requires 0 <= i < |t|
    ensures Above(t[i..]) == Above(t[i + 1..]) + (if t[i] > 1 then 1 else 0)
  {
    assert t[i..] == [t[i]] + t[i + 1..];
    assert [t[i]][..0] == [];
    AboveAppend([t[i]], t[i + 1..]);
  }

  /** How many levels one pass of the decrement walk lowers: the surplus, or every lowerable level if there are fewer. */
  function PassLowered(s: seq<int>, surplus: int): (k: int)
    ensures k <= surplus && k <= Above(s)
  {
    if surplus <= Above(s) then surplus else Above(s)
  }

  /**
   * One reverse pass of the decrement walk over an allocation above `total`:
   * the last lowerable levels lose a bed each, as many as beds are in excess
   * or all of them. While `total` is at least the number of levels, some
   * level is lowerable, so the pass removes at least one bed.
   */
  function DecrementPass(s: seq<int>, total: int): (r: seq<int>)
    requires AllPositive(s) && total >= |s| && Sum(s) > total
    ensures |r| == |s| && AllPositive(r) && total <= Sum(r) < Sum(s)
  {
    DecrementPassMakesProgress(s);
    LowerLast(s, PassLowered(s, Sum(s) - total))
  }

  /** The decrement pass that lowers `e` levels, named by its count. */
  lemma DecrementPassLowers(s: seq<int>, total: int, e: nat)
    requires AllPositive(s) && total >= |s| && Sum(s) > total
    requires e == PassLowered(s, Sum(s) - total)
    ensures DecrementPass(s, total) == LowerLast(s, e)
  {
    assert DecrementPass(s, total) == LowerLast(s, PassLowered(s, Sum(s) - total));
  }

  /**
   * The decrement walk run to `total`: reverse passes while the allocation
   * exceeds `total`; an allocation not above `total` is kept. Needs `total`
   * to be at least the number of levels, otherwise the walk never reaches it.
   */
  function LoweredTo(s: seq<int>, total: int): (r: seq<int>)
    requires AllPositive(s) && total >= |s|
    ensures |r| == |s| && AllPositive(r) && Sum(r) == (if Sum(s) > total then total else Sum(s))
    decreases Sum(s) - total
  {
    if Sum(s) > total then LoweredTo(DecrementPass(s, total), total) else s
  }

  // ---------------------------------------------------------------------
  // Reconciliation

  /**
   * A reverse pass stopped at index `h`: the levels before `h` are
   * untouched and every level from `h` on that was above one lost a bed.
   * That is the decrement walk over as many levels as it lowered.
   */
  lemma {:induction false} PassFromLowered(t: seq<int>, cur: seq<int>, h: int, e: int)
    requires |cur| == |t| && 0 <= h <= |t| && e == Above(t[h..])
    requires forall k :: 0 <= k < h ==> cur[k] == t[k]
    requires forall k :: h <= k < |t| ==> cur[k] == LowerOne(t[k])
    ensures 0 <= e <= Above(t) && cur == LowerLast(t, e)
  {
    assert cur == t[..h] + LowerAll(t[h..]);
    LowerLastSuffix(t, h);
  }

  /**
   * The reconciled allocation: the increment walk, then the decrement walk.
   * At most one of them does anything: the first covers a deficit, the
   * second a surplus, and an exact allocation is left alone.
   */
  function Reconciled(s: seq<int>, total: int): (r: seq<int>)
    requires |s| >= 1 && AllPositive(s) && total >= |s|
    ensures |r| == |s| && Sum(r) == total && AllPositive(r)
  {
    LoweredTo(RaisedTo(s, total), total)
  }

  // ---------------------------------------------------------------------
  // Properties

  /** Sums split over concatenation. */
  lemma {:induction false} SumAppend(u: seq<int>, v: seq<int>)
    ensures Sum(u + v) == Sum(u) + Sum(v)
    decreases |v|
  {
    if v == [] {
      assert u + v == u;
    } else {
      var w := v[..|v| - 1];
      assert (u + v)[..|u + v| - 1] == u + w;
      SumAppend(u, w);
    }
  }

  /** Counts of lowerable levels split over concatenation. */
  lemma {:induction false} AboveAppend(u: seq<int>, v: seq<int>)
    ensures Above(u + v) == Above(u) + Above(v)
    decreases |v|
  {
    if v == [] {
      assert u + v == u;
    } else {
      var w := v[..|v| - 1];
      assert (u + v)[..|u + v| - 1] == u + w;
      AboveAppend(u, w);
    }
  }

  /** A positive allocation holds at least one bed per level. */
  lemma {:induction false} SumAtLeastLength(s: seq<int>)
    requires AllPositive(s)
    ensures Sum(s) >= |s|
    decreases |s|
  {
    if s != [] {
      SumAtLeastLength(s[..|s| - 1]);
    }
  }

  /**
   * Why the seeder needs `total >= number of levels`: no allocation with at
   * least one bed per level sums to less, so the decrement walk, which keeps
   * every level at one or more and stops only on an exact sum, never stops.
   */
  lemma InfeasibleBelowLevelCount(r: seq<int>, total: int)
    requires AllPositive(r) && total < |r|
    ensures Sum(r) != total
  {
    SumAtLeastLength(r);
  }

  /** Once every level is down to one bed, a decrement pass lowers nothing. */
  lemma {:induction false} AllOnesPassIsStuck(s: seq<int>)
    requires forall i :: 0 <= i < |s| ==> s[i] == 1
    ensures Above(s) == 0 && LowerAll(s) == s
    decreases |s|
  {
    if s != [] {
      AllOnesPassIsStuck(s[..|s| - 1]);
    }
  }

  /** A positive allocation that sums to the number of levels is all ones. */
  lemma {:induction false} TightIsAllOnes(s: seq<int>)
    requires AllPositive(s) && Sum(s) == |s|
    ensures forall i :: 0 <= i < |s| ==> s[i] == 1
    decreases |s|
  {
    if s != [] {
      var init := s[..|s| - 1];
      SumAtLeastLength(init);
      TightIsAllOnes(init);
      assert forall i :: 0 <= i < |init| ==> s[i] == init[i];
    }
  }

  /** With capacity equal to the number of levels every level gets exactly one bed. */
  lemma ReconciledAtLevelCount(s: seq<int>)
    requires |s| >= 1 && AllPositive(s)
    ensures forall i :: 0 <= i < |s| ==> Reconciled(s, |s|)[i] == 1
  {
    TightIsAllOnes(Reconciled(s, |s|));
  }

  /** An allocation that already sums to the capacity is left unchanged, so reconciling twice is reconciling once. */
  lemma ReconciledIdempotent(s: seq<int>, total: int)
    requires |s| >= 1 && AllPositive(s) && total >= |s|
    ensures Sum(s) == total ==> Reconciled(s, total) == s
    ensures Reconciled(Reconciled(s, total), total) == Reconciled(s, total)
  {
  }

  /** A deficit no larger than the number of levels is covered by the first increment pass. */
  lemma RaisedInOnePass(s: seq<int>, total: int)
    requires |s| >= 1 && Sum(s) <= total <= Sum(s) + |s|
    ensures RaisedTo(s, total) == RaiseLast(s, total - Sum(s))
  {
    var r := RaiseLast(s, total - Sum(s));
    SumRaiseLast(s, total - Sum(s));
    if Sum(s) < total {
      assert IncrementPass(s, total) == RaiseLast(s, PassRaised(s, total - Sum(s)));
      assert RaisedTo(s, total) == RaisedTo(r, total);
    } else {
      assert r == s;
    }
  }

  /**
   * A deficit smaller than the number of levels is covered by one partial
   * pass: exactly the last `total - Sum(s)` levels gain one bed each, the
   * others are unchanged.
   */
  lemma SmallDeficit(s: seq<int>, total: int)
    requires |s| >= 1 && AllPositive(s) && total >= |s|
    requires Sum(s) <= total < Sum(s) + |s|
    ensures Reconciled(s, total) == RaiseLast(s, total - Sum(s))
  {
    RaisedInOnePass(s, total);
    assert LoweredTo(RaisedTo(s, total), total) == RaisedTo(s, total);
  }

  /** The decrement walk never takes the last bed of a level. */
  lemma LoweredToKeepsOnes(s: seq<int>, total: int)
    requires AllPositive(s) && total >= |s|
    ensures forall i :: 0 <= i < |s| && s[i] == 1 ==> LoweredTo(s, total)[i] == 1
  {
    LoweredToLowers(s, total);
  }

  /** The 420-bed example: a provisional sum of 419 gives the extra bed to the last level. */
  lemma FourHundredTwentyBeds()
    ensures Reconciled([14, 37, 115, 115, 138], 420) == [14, 37, 115, 115, 139]
  {
    var s := [14, 37, 115, 115, 138];
    forall x: int ensures Sum([x]) == x {
      assert [x][..0] == [];
    }
    assert s == [14] + [37] + [115] + [115] + [138];
    SumAppend([14], [37]);
    SumAppend([14] + [37], [115]);
    SumAppend([14] + [37] + [115], [115]);
    SumAppend([14] + [37] + [115] + [115], [138]);
    assert Sum(s) == 419;
    SmallDeficit(s, 420);
    assert RaiseLast(s, 1) == [14, 37, 115, 115, 139];
  }

  /** A full decrement pass handles the last level after the others. */
  lemma {:induction false} LowerAllSnoc(v: seq<int>, x: int)
    ensures LowerAll(v + [x]) == LowerAll(v) + [if x > 1 then x - 1 else x]
  {
  }

  /** Extending an allocation by one level adds one lowerable level exactly when it holds more than one bed. */
  lemma {:induction false} AboveSnoc(v: seq<int>, x: int)
    ensures Above(v + [x]) == Above(v) + (if x > 1 then 1 else 0)
  {
    assert (v + [x])[..|v|] == v;
  }

  /** Extending an allocation by one level: a walk over it lowers that level first if it can. */
  lemma {:induction false} LowerLastSnoc(v: seq<int>, x: int, k: nat)
    requires k <= Above(v)
    ensures k + (if x > 1 then 1 else 0) <= Above(v + [x])
    ensures LowerLast(v + [x], k + (if x > 1 then 1 else 0)) == LowerLast(v, k) + [if x > 1 then x - 1 else x]
  {
    AboveSnoc(v, x);
    assert (v + [x])[..|v|] == v;
    if k == 0 && x <= 1 {
      assert LowerLast(v, 0) == v;
    }
  }

  /** The walk over `v + [x]` that stops after the levels from `h` on: the one over `v`, then `x`. */
  lemma {:induction false} LowerLastSuffixSnocWalk(v: seq<int>, x: int, h: nat)
    requires h <= |v| && Above(v[h..]) <= Above(v)
    ensures Above((v + [x])[h..]) == Above(v[h..]) + (if x > 1 then 1 else 0) <= Above(v + [x])
    ensures LowerLast(v + [x], Above((v + [x])[h..])) == LowerLast(v, Above(v[h..])) + [if x > 1 then x - 1 else x]
  {
    assert (v + [x])[h..] == v[h..] + [x];
    AboveSnoc(v[h..], x);
    LowerLastSnoc(v, x, Above(v[h..]));
  }

  /** A full pass over the levels from `h` on of `v + [x]`: the one over `v`'s, then `x`. */
  lemma {:induction false} LowerAllSuffixSnoc(v: seq<int>, x: int, h: nat)
    requires h <= |v|
    ensures (v + [x])[..h] == v[..h]
    ensures LowerAll((v + [x])[h..]) == LowerAll(v[h..]) + [if x > 1 then x - 1 else x]
  {
    assert (v + [x])[h..] == v[h..] + [x];
    assert (v + [x])[..h] == v[..h];
    LowerAllSnoc(v[h..], x);
  }

  /** One more level at the end: the suffix property carries over from `v` to `v + [x]`. */
  lemma {:induction false} LowerLastSuffixSnoc(v: seq<int>, x: int, h: nat)
    requires h <= |v|
    requires Above(v[h..]) <= Above(v)
    requires LowerLast(v, Above(v[h..])) == v[..h] + LowerAll(v[h..])
    ensures Above((v + [x])[h..]) <= Above(v + [x])
    ensures LowerLast(v + [x], Above((v + [x])[h..])) == (v + [x])[..h] + LowerAll((v + [x])[h..])
  {
    LowerLastSuffixSnocWalk(v, x, h);
    LowerAllSuffixSnoc(v, x, h);
    var p, q, lx := v[..h], LowerAll(v[h..]), if x > 1 then x - 1 else x;
    assert (p + q) + [lx] == p + (q + [lx]);
  }

  /**
   * A partial decrement pass that has handled the levels from `h` on is the
   * prefix before `h` followed by a full pass over the suffix.
   */
  lemma {:induction false} LowerLastSuffix(t: seq<int>, h: nat)
    requires h <= |t|
    ensures Above(t[h..]) <= Above(t)
    ensures LowerLast(t, Above(t[h..])) == t[..h] + LowerAll(t[h..])
    decreases |t|
  {
    if h == |t| {
      assert t[h..] == [] && t[..h] == t;
      assert LowerAll([]) == [];
    } else {
      var init, x := t[..|t| - 1], t[|t| - 1];
      assert t == init + [x];
      LowerLastSuffix(init, h);
      LowerLastSuffixSnoc(init, x, h);
    }
  }

  /** The increment walk never takes a bed away from a level. */
  lemma {:induction false} RaisedToRaises(s: seq<int>, total: int)
    requires |s| >= 1
    ensures forall i :: 0 <= i < |s| ==> s[i] <= RaisedTo(s, total)[i]
    decreases total - Sum(s)
  {
    if Sum(s) < total {
      RaisedToRaises(IncrementPass(s, total), total);
    }
  }

  /** The decrement walk never adds a bed to a level. */
  lemma {:induction false} LoweredToLowers(s: seq<int>, total: int)
    requires AllPositive(s) && total >= |s|
    ensures forall i :: 0 <= i < |s| ==> LoweredTo(s, total)[i] <= s[i]
    decreases Sum(s) - total
  {
    if Sum(s) > total {
      DecrementPassMakesProgress(s);
      LowerLastPointwise(s, PassLowered(s, Sum(s) - total));
      LoweredToLowers(DecrementPass(s, total), total);
    }
  }

  /**
   * Reconciliation moves every level the same way: an allocation short of
   * the total only gains beds, one above it only loses beds.
   */
  lemma ReconciledOneWay(s: seq<int>, total: int)
    requires |s| >= 1 && AllPositive(s) && total >= |s|
    ensures Sum(s) <= total ==> forall i :: 0 <= i < |s| ==> s[i] <= Reconciled(s, total)[i]
    ensures Sum(s) >= total ==> forall i :: 0 <= i < |s| ==> Reconciled(s, total)[i] <= s[i]
  {
    RaisedToRaises(s, total);
    LoweredToLowers(s, total);
  }
}
