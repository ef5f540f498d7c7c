/** Choosing many items under a limit in every fee dimension: weights, a stable sort, a greedy pass, and
    the compaction of the chosen indices. */
module LargestSet {
  import opened Bytes
  import opened Fees

  const SHIFT := 65536

  // ---- Weights and order ---------------------------------------------------------------------

  /** A word reinterpreted as a signed one. */
  function Signed(v: U64): int {
    if v < TWO_TO_THE_63 then v else v as int - TWO_TO_THE_64
  }

  /** The squared magnitude of one dimension relative to its limit. */
  function Part(d: U64, limit: U64): (w: nat)
  {
    if limit == 0 then 0
    else
      SquareIsPositive(Signed(limit));
      SquareIsPositive(Signed(d));
      SHIFT * (Signed(d) * Signed(d)) / (Signed(limit) * Signed(limit))
  }

  lemma SquareIsPositive(x: int)
    ensures x * x >= 0
    ensures x != 0 ==> x * x > 0
  {
  }

  function WeightUpTo(d: Dimensions, limit: Dimensions, k: nat): nat
    requires k <= FEE_DIMENSIONS
  {
    if k == 0 then 0 else WeightUpTo(d, limit, k - 1) + Part(d[k - 1], limit[k - 1])
  }

  function Weight(d: Dimensions, limit: Dimensions): nat {
    WeightUpTo(d, limit, FEE_DIMENSIONS)
  }

  function WeightsOf(dimensions: seq<Dimensions>, limit: Dimensions): (weights: seq<nat>)
    ensures |weights| == |dimensions|
    ensures forall i :: 0 <= i < |weights| ==> weights[i] == Weight(dimensions[i], limit)
  {
    seq(|dimensions|, i requires 0 <= i < |dimensions| => Weight(dimensions[i], limit))
  }

  method Weights(dimensions: seq<Dimensions>, limit: Dimensions) returns (weights: seq<nat>)
    ensures weights == WeightsOf(dimensions, limit)
  {
    weights := [];
    var i := 0;
    while i < |dimensions|
      invariant i <= |dimensions| && |weights| == i
      invariant forall j :: 0 <= j < i ==> weights[j] == Weight(dimensions[j], limit)
    {
      var size, k := 0, 0;
      while k < FEE_DIMENSIONS
        invariant k <= FEE_DIMENSIONS && size == WeightUpTo(dimensions[i], limit, k)
      {
        size := size + Part(dimensions[i][k], limit[k]);
        k := k + 1;
      }
      weights := weights + [size];
      i := i + 1;
    }
  }

  /** A word as the signed number that the same bits stand for. */
  function Magnitude(v: U64): nat {
    if v < 0x8000_0000_0000_0000 then v else 0x1_0000_0000_0000_0000 - v
  }

  /** The weight in plain arithmetic: for each dimension with a limit, 65536 times the square of the magnitude
      over the square of the limit's, rounded down; a dimension without a limit weighs nothing. */
  lemma WeightIs(d: Dimensions, limit: Dimensions)
    ensures Weight(d, limit)
         == Part(d[0], limit[0]) + Part(d[1], limit[1]) + Part(d[2], limit[2]) + Part(d[3], limit[3]) + Part(d[4], limit[4])
    ensures forall k :: 0 <= k < 5 ==> IsRatio(Part(d[k], limit[k]), d[k], limit[k])
  {
    hide Part;
    assert WeightUpTo(d, limit, 1) == Part(d[0], limit[0]);
    assert WeightUpTo(d, limit, 2) == WeightUpTo(d, limit, 1) + Part(d[1], limit[1]);
    assert WeightUpTo(d, limit, 3) == WeightUpTo(d, limit, 2) + Part(d[2], limit[2]);
    assert WeightUpTo(d, limit, 4) == WeightUpTo(d, limit, 3) + Part(d[3], limit[3]);
    forall k | 0 <= k < 5 ensures IsRatio(Part(d[k], limit[k]), d[k], limit[k]) {
      PartIsRatio(d[k], limit[k]);
    }
  }

  ghost predicate IsRatio(w: nat, d: U64, limit: U64) {
    if limit == 0 then w == 0
    else
      var top, bottom := 65536 * (Magnitude(d) * Magnitude(d)), Magnitude(limit) * Magnitude(limit);
      w * bottom <= top < w * bottom + bottom
  }

  lemma PartIsRatio(d: U64, limit: U64)
    ensures IsRatio(Part(d, limit), d, limit)
  {
    if limit != 0 {
      SquareOfMagnitude(d);
      SquareOfMagnitude(limit);
      SquareIsPositive(Signed(limit));
      var top, bottom := 65536 * (Magnitude(d) * Magnitude(d)), Magnitude(limit) * Magnitude(limit);
      assert Part(d, limit) == top / bottom;
      QuotientBounds(top, bottom);
    }
  }

  lemma SquareOfMagnitude(v: U64)
    ensures Signed(v) * Signed(v) == Magnitude(v) * Magnitude(v)
  {
    var m: int := Magnitude(v);
    assert Signed(v) == m || Signed(v) == -m;
    assert (-m) * (-m) == m * m;
  }

  lemma QuotientBounds(top: nat, bottom: nat)
    requires bottom > 0
    ensures top / bottom * bottom <= top < top / bottom * bottom + bottom
  {
  }

  /** Squaring matters: of these two, the first is lighter although its parts add up to more. */
  lemma SquaresDecide()
    ensures var limit: Dimensions := [10, 10, 10, 10, 10];
            Weight([6, 6, 0, 0, 0], limit) == 47184 && Weight([9, 0, 0, 0, 0], limit) == 53084
  {
    var limit: Dimensions := [10, 10, 10, 10, 10];
    WeightIs([6, 6, 0, 0, 0], limit);
    WeightIs([9, 0, 0, 0, 0], limit);
    assert Part(6, 10) == 23592 && Part(9, 10) == 53084 && Part(0, 10) == 0;
  }

  /** One index goes before another in the stable order. */
  predicate Before(weights: seq<nat>, a: nat, b: nat) {
    a < |weights| && b < |weights| && (weights[a] < weights[b] || (weights[a] == weights[b] && a < b))
  }

  /** The first n indices, in order of weight, those of equal weight in their own order. */
  ghost predicate SortedUpTo(weights: seq<nat>, order: seq<nat>, n: nat) {
    && (forall i :: 0 <= i < |order| ==> order[i] < n)
    && (forall i: nat :: i < n ==> i in order)
    && (forall i, j :: 0 <= i < j < |order| ==> Before(weights, order[i], order[j]))
  }

  ghost predicate StablySorted(weights: seq<nat>, order: seq<nat>) {
    SortedUpTo(weights, order, |weights|)
  }

  /** There is one stable order. */
  lemma StableOrderIsUnique(weights: seq<nat>, a: seq<nat>, b: seq<nat>)
    requires StablySorted(weights, a) && StablySorted(weights, b)
    ensures a == b
  {
    StableOrdersAgree(weights, a, b, |a|);
    StableOrdersAgree(weights, b, a, |b|);
  }

  lemma {:induction false} StableOrdersAgree(weights: seq<nat>, a: seq<nat>, b: seq<nat>, k: nat)
    requires StablySorted(weights, a) && StablySorted(weights, b) && k <= |a|
    ensures k <= |b| && a[..k] == b[..k]
  {
    if k > 0 {
      var n := k - 1;
      StableOrdersAgree(weights, a, b, n);
      assert forall i :: 0 <= i < n ==> a[..n][i] == a[i] && b[..n][i] == b[i];
      assert a[n] in b && (n < |b| ==> b[n] in a);
      assert a[..k] == a[..n] + [a[n]] && b[..k] == b[..n] + [b[n]];
    }
  }

  /** A stable sort of the indices. */
  method SortIndices(weights: seq<nat>) returns (order: seq<nat>)
    ensures StablySorted(weights, order)
  {
    order := [];
    var n := 0;
    while n < |weights|
      invariant n <= |weights| && SortedUpTo(weights, order, n)
    {
      var p := |order|;
      while p > 0 && weights[n] < weights[order[p - 1]]
        invariant 0 <= p <= |order|
        invariant forall j :: p <= j < |order| ==> Before(weights, n, order[j])
      {
        p := p - 1;
      }
      InsertSorted(weights, order, n, p);
      order := order[..p] + [n] + order[p..];
      n := n + 1;
    }
  }

  lemma InsertSorted(weights: seq<nat>, order: seq<nat>, n: nat, p: nat)
    requires n < |weights| && SortedUpTo(weights, order, n) && p <= |order|
    requires forall j :: p <= j < |order| ==> Before(weights, n, order[j])
    requires p > 0 ==> weights[order[p - 1]] <= weights[n]
    ensures SortedUpTo(weights, order[..p] + [n] + order[p..], n + 1)
  {
    var r := order[..p] + [n] + order[p..];
    forall j | 0 <= j < p ensures Before(weights, order[j], n) {
      if j < p - 1 {
        assert Before(weights, order[j], order[p - 1]);
      }
    }
    forall i: nat | i < n + 1 ensures i in r {
      if i < n {
        assert order == order[..p] + order[p..];
        assert i in order;
      }
    }
  }

  // ---- The greedy pass -----------------------------------------------------------------------

  /** The accumulator after the items in `order`. */
  function Accumulate(dimensions: seq<Dimensions>, limit: Dimensions, order: seq<nat>): (acc: Dimensions)
    requires forall i :: 0 <= i < |order| ==> order[i] < |dimensions|
    ensures forall k :: 0 <= k < FEE_DIMENSIONS ==> acc[k] <= limit[k]
  {
    if order == [] then NoUnits
    else
      var before := Accumulate(dimensions, limit, order[..|order| - 1]);
      var item := dimensions[order[|order| - 1]];
      if FirstOver(before, item, limit, 0).None? then Plus(before, item) else before
  }

  /** Whether the last item of `order` is taken. */
  function Takes(dimensions: seq<Dimensions>, limit: Dimensions, order: seq<nat>): (b: bool)
    requires order != [] && (forall i :: 0 <= i < |order| ==> order[i] < |dimensions|)
    ensures b <==> Fits(Accumulate(dimensions, limit, order[..|order| - 1]), dimensions[order[|order| - 1]], limit)
  {
    FirstOver(Accumulate(dimensions, limit, order[..|order| - 1]), dimensions[order[|order| - 1]], limit, 0).None?
  }

  /** The items taken, in order. */
  function Taken(dimensions: seq<Dimensions>, limit: Dimensions, order: seq<nat>): seq<nat>
    requires forall i :: 0 <= i < |order| ==> order[i] < |dimensions|
  {
    if order == [] then []
    else
      var before := Taken(dimensions, limit, order[..|order| - 1]);
      if Takes(dimensions, limit, order) then before + [order[|order| - 1]] else before
  }

  /** The sum of some items in one dimension. */
  function Sum(dimensions: seq<Dimensions>, items: seq<nat>, k: nat): nat
    requires k < FEE_DIMENSIONS && (forall i :: 0 <= i < |items| ==> items[i] < |dimensions|)
  {
    if items == [] then 0
    else Sum(dimensions, items[..|items| - 1], k) + dimensions[items[|items| - 1]][k] as nat
  }

  lemma SumSnoc(dimensions: seq<Dimensions>, items: seq<nat>, x: nat, k: nat)
    requires k < FEE_DIMENSIONS && x < |dimensions| && (forall i :: 0 <= i < |items| ==> items[i] < |dimensions|)
    ensures Sum(dimensions, items + [x], k) == Sum(dimensions, items, k) + dimensions[x][k] as nat
  {
    assert (items + [x])[..|items|] == items;
  }

  lemma {:induction false} SumConcat(dimensions: seq<Dimensions>, a: seq<nat>, b: seq<nat>, k: nat)
    requires k < FEE_DIMENSIONS && (forall i :: 0 <= i < |a| ==> a[i] < |dimensions|)
    requires forall i :: 0 <= i < |b| ==> b[i] < |dimensions|
    ensures forall i :: 0 <= i < |a + b| ==> (a + b)[i] < |dimensions|
    ensures Sum(dimensions, a + b, k) == Sum(dimensions, a, k) + Sum(dimensions, b, k)
    decreases |b|
  {
    if b == [] {
      assert a + b == a;
    } else {
      assert (a + b)[..|a + b| - 1] == a + b[..|b| - 1];
      SumConcat(dimensions, a, b[..|b| - 1], k);
    }
  }

  lemma {:induction false} TakenAreIndices(dimensions: seq<Dimensions>, limit: Dimensions, order: seq<nat>)
    requires forall i :: 0 <= i < |order| ==> order[i] < |dimensions|
    ensures forall i :: 0 <= i < |Taken(dimensions, limit, order)| ==> Taken(dimensions, limit, order)[i] < |dimensions|
    ensures |Taken(dimensions, limit, order)| <= |order|
  {
    if order != [] {
      TakenAreIndices(dimensions, limit, order[..|order| - 1]);
    }
  }

  /** The accumulator is the sum of the items taken. */
  lemma {:induction false} AccumulatorIsSum(dimensions: seq<Dimensions>, limit: Dimensions, order: seq<nat>, k: nat)
    requires k < FEE_DIMENSIONS && (forall i :: 0 <= i < |order| ==> order[i] < |dimensions|)
    ensures forall i :: 0 <= i < |Taken(dimensions, limit, order)| ==> Taken(dimensions, limit, order)[i] < |dimensions|
    ensures Accumulate(dimensions, limit, order)[k] == Sum(dimensions, Taken(dimensions, limit, order), k)
  {
    TakenAreIndices(dimensions, limit, order);
    if order != [] {
      AccumulatorIsSum(dimensions, limit, order[..|order| - 1], k);
      if Takes(dimensions, limit, order) {
        SumSnoc(dimensions, Taken(dimensions, limit, order[..|order| - 1]), order[|order| - 1], k);
      }
    }
  }

  lemma {:induction false} AccumulatorGrows(
    dimensions: seq<Dimensions>, limit: Dimensions, order: seq<nat>, n: nat, k: nat)
    requires n <= |order| && k < FEE_DIMENSIONS && (forall i :: 0 <= i < |order| ==> order[i] < |dimensions|)
    ensures Accumulate(dimensions, limit, order[..n])[k] <= Accumulate(dimensions, limit, order)[k]
    decreases |order|
  {
    if n < |order| {
      assert order[..|order| - 1][..n] == order[..n];
      AccumulatorGrows(dimensions, limit, order[..|order| - 1], n, k);
    } else {
      assert order[..n] == order;
    }
  }

  /** The choice is maximal: an item that was not taken does not fit on top of the final accumulator. */
  lemma RejectedDoNotFit(dimensions: seq<Dimensions>, limit: Dimensions, order: seq<nat>, n: nat)
    requires n < |order| && (forall i :: 0 <= i < |order| ==> order[i] < |dimensions|)
    requires !Takes(dimensions, limit, order[..n + 1])
    ensures !Fits(Accumulate(dimensions, limit, order), dimensions[order[n]], limit)
  {
    assert order[..n + 1][..n] == order[..n];
    var over := FirstOver(Accumulate(dimensions, limit, order[..n]), dimensions[order[n]], limit, 0).value;
    AccumulatorGrows(dimensions, limit, order, n, over);
  }

  // ---- Marking and compacting ----------------------------------------------------------------

  /** The order with the items that are not taken replaced by a mark. */
  function Marked(dimensions: seq<Dimensions>, limit: Dimensions, order: seq<nat>): (m: seq<nat>)
    requires forall i :: 0 <= i < |order| ==> order[i] < |dimensions|
    ensures |m| == |order|
  {
    if order == [] then []
    else
      Marked(dimensions, limit, order[..|order| - 1])
      + [if Takes(dimensions, limit, order) then order[|order| - 1] else |dimensions|]
  }

  function Unmarked(m: seq<nat>, mark: nat): (r: seq<nat>)
    ensures |r| <= |m|
  {
    if m == [] then []
    else if m[|m| - 1] == mark then Unmarked(m[..|m| - 1], mark)
    else Unmarked(m[..|m| - 1], mark) + [m[|m| - 1]]
  }

  /** What comes before the first mark. */
  function BeforeMark(m: seq<nat>, mark: nat): (r: seq<nat>)
    ensures |r| <= |m| && r == m[..|r|] && mark !in r
    ensures |r| < |m| ==> m[|r|] == mark
  {
    if m == [] || m[0] == mark then []
    else
      assert m == [m[0]] + m[1..];
      [m[0]] + BeforeMark(m[1..], mark)
  }

  /** Without the marks, what is left are the items taken. */
  lemma {:induction false} UnmarkedAreTaken(dimensions: seq<Dimensions>, limit: Dimensions, order: seq<nat>)
    requires forall i :: 0 <= i < |order| ==> order[i] < |dimensions|
    ensures Unmarked(Marked(dimensions, limit, order), |dimensions|) == Taken(dimensions, limit, order)
  {
    if order != [] {
      var init := order[..|order| - 1];
      UnmarkedAreTaken(dimensions, limit, init);
      var m := Marked(dimensions, limit, order);
      assert m[..|m| - 1] == Marked(dimensions, limit, init);
    }
  }

  /** The compaction as written: it looks for a mark at position i instead of i + j, so once it meets one
      it stays there, and what it leaves are the indices before the first mark. */
  method Compact(a: array<nat>, mark: nat) returns (n: nat)
    modifies a
    ensures n <= a.Length && a[..n] == BeforeMark(old(a[..]), mark)
  {
    var i, j := 0, 0;
    while i < a.Length - j
      invariant i <= a.Length - j
      invariant a[..] == old(a[..]) && mark !in a[..i]
      invariant j > 0 ==> a[i] == mark
      decreases a.Length - j - i
    {
      if a[i] == mark {
        j := j + 1;
      } else {
        a[i] := a[i + j];
        assert a[..i + 1] == a[..i] + [a[i]];
        i := i + 1;
      }
    }
    n := a.Length - j;
    FirstMarkAt(a[..], mark, n);
  }

  lemma FirstMarkAt(m: seq<nat>, mark: nat, n: nat)
    requires n <= |m| && mark !in m[..n] && (n < |m| ==> m[n] == mark)
    ensures BeforeMark(m, mark) == m[..n]
  {
  }

  /** The compaction as intended keeps all the indices that are not marked. */
  method CompactAll(a: array<nat>, mark: nat) returns (n: nat)
    modifies a
    ensures n <= a.Length && a[..n] == Unmarked(old(a[..]), mark)
  {
    var i, j := 0, 0;
    while i < a.Length - j
      invariant i <= a.Length - j
      invariant a[i + j..] == old(a[i + j..])
      invariant a[..i] == Unmarked(old(a[..i + j]), mark)
      decreases a.Length - j - i
    {
      assert old(a[..i + j + 1])[..i + j] == old(a[..i + j]);
      assert a[i + j] == a[i + j..][0] == old(a[i + j..])[0] == old(a[i + j]);
      assert a[i + j..][1..] == a[i + j + 1..] && old(a[i + j..])[1..] == old(a[i + j + 1..]);
      if a[i + j] == mark {
        j := j + 1;
      } else {
        a[i] := a[i + j];
        assert a[..i + 1] == a[..i] + [a[i]];
        i := i + 1;
      }
    }
    n := a.Length - j;
    assert old(a[..i + j]) == old(a[..]);
  }

  // ---- LargestSet ----------------------------------------------------------------------------

  lemma NothingYet(dimensions: seq<Dimensions>, limit: Dimensions)
    ensures Accumulate(dimensions, limit, []) == NoUnits && Taken(dimensions, limit, []) == []
    ensures Marked(dimensions, limit, []) == []
  {
  }

  lemma Snoc(dimensions: seq<Dimensions>, limit: Dimensions, order: seq<nat>, x: nat)
    requires x < |dimensions| && (forall i :: 0 <= i < |order| ==> order[i] < |dimensions|)
    ensures forall i :: 0 <= i < |order + [x]| ==> (order + [x])[i] < |dimensions|
    ensures var acc := Accumulate(dimensions, limit, order);
            var next := order + [x];
            if Fits(acc, dimensions[x], limit) then
              && IsSum(Accumulate(dimensions, limit, next), acc, dimensions[x])
              && Taken(dimensions, limit, next) == Taken(dimensions, limit, order) + [x]
              && Marked(dimensions, limit, next) == Marked(dimensions, limit, order) + [x]
            else
              && Accumulate(dimensions, limit, next) == acc
              && Taken(dimensions, limit, next) == Taken(dimensions, limit, order)
              && Marked(dimensions, limit, next) == Marked(dimensions, limit, order) + [|dimensions|]
  {
    assert (order + [x])[..|order|] == order;
  }

  lemma SumIsUnique(r: Dimensions, s: Dimensions, a: Dimensions, b: Dimensions)
    requires IsSum(r, a, b) && IsSum(s, a, b)
    ensures r == s
  {
  }

  /** The greedy loop: takes what fits and marks what does not. Adding to the accumulator never fails. */
  method MarkRejected(a: array<nat>, dimensions: seq<Dimensions>, limit: Dimensions) returns (accumulator: Dimensions)
    requires forall i :: 0 <= i < a.Length ==> a[i] < |dimensions|
    modifies a
    ensures a[..] == Marked(dimensions, limit, old(a[..]))
    ensures accumulator == Accumulate(dimensions, limit, old(a[..]))
  {
    hide Accumulate, Marked, Taken, FirstOver;
    ghost var order := a[..];
    accumulator := NoUnits;
    var i := 0;
    NothingYet(dimensions, limit);
    while i < a.Length
      invariant i <= a.Length
      invariant forall k :: i <= k < a.Length ==> a[k] == order[k]
      invariant a[..i] == Marked(dimensions, limit, order[..i])
      invariant accumulator == Accumulate(dimensions, limit, order[..i])
    {
      assert order[..i + 1] == order[..i] + [order[i]];
      Snoc(dimensions, limit, order[..i], order[i]);
      var dim := dimensions[a[i]];
      var ok := CanAdd(accumulator, dim, limit);
      if !ok {
        a[i] := |dimensions|;
      } else {
        var sum := Add(accumulator, dim);
        SumIsUnique(sum.value, Accumulate(dimensions, limit, order[..i + 1]), accumulator, dim);
        accumulator := sum.value;
      }
      assert a[..i + 1] == a[..i] + [a[i]];
      i := i + 1;
    }
    assert order[..i] == order && a[..i] == a[..];
  }

  /** The list that is returned: the items taken before the first one that is not. */
  function Returned(dimensions: seq<Dimensions>, limit: Dimensions, order: seq<nat>): seq<nat>
    requires forall j :: 0 <= j < |order| ==> order[j] < |dimensions|
  {
    BeforeMark(Marked(dimensions, limit, order), |dimensions|)
  }

  /** What LargestSet returns when it takes the items in this order: the indices before the first item
      that is not taken, and the sum of all the items taken. */
  ghost predicate Chosen(
    dimensions: seq<Dimensions>, limit: Dimensions, order: seq<nat>, outIndices: seq<nat>, accumulator: Dimensions)
  {
    && (forall i :: 0 <= i < |order| ==> order[i] < |dimensions|)
    && accumulator == Accumulate(dimensions, limit, order)
    && outIndices == Returned(dimensions, limit, order)
  }

  /** LargestSet takes the items in the stable order by weight. */
  method LargestSet(dimensions: seq<Dimensions>, limit: Dimensions) returns (outIndices: seq<nat>, accumulator: Dimensions)
    ensures exists order ::
              StablySorted(WeightsOf(dimensions, limit), order) && Chosen(dimensions, limit, order, outIndices, accumulator)
  {
    var weights := Weights(dimensions, limit);
    var order := SortIndices(weights);
    var a := new nat[|order|](i requires 0 <= i < |order| => order[i]);
    assert a[..] == order;
    accumulator := MarkRejected(a, dimensions, limit);
    var n := Compact(a, |dimensions|);
    outIndices := a[..n];
    assert Chosen(dimensions, limit, order, outIndices, accumulator);
  }

  /** So the result does not depend on anything else. */
  lemma LargestSetIsDetermined(
    dimensions: seq<Dimensions>, limit: Dimensions, a: seq<nat>, outA: seq<nat>, accA: Dimensions,
    b: seq<nat>, outB: seq<nat>, accB: Dimensions)
    requires StablySorted(WeightsOf(dimensions, limit), a) && Chosen(dimensions, limit, a, outA, accA)
    requires StablySorted(WeightsOf(dimensions, limit), b) && Chosen(dimensions, limit, b, outB, accB)
    ensures outA == outB && accA == accB
  {
    StableOrderIsUnique(WeightsOf(dimensions, limit), a, b);
  }

  /** The list that is returned sums to the accumulator exactly when the items taken after the first one
      that was not taken are all zero. */
  lemma ReturnedSumIsShort(dimensions: seq<Dimensions>, limit: Dimensions, order: seq<nat>, k: nat)
    requires k < FEE_DIMENSIONS && (forall i :: 0 <= i < |order| ==> order[i] < |dimensions|)
    ensures var returned := Returned(dimensions, limit, order);
            var taken := Taken(dimensions, limit, order);
            && |returned| <= |taken| && returned == taken[..|returned|]
            && (forall i :: 0 <= i < |taken| ==> taken[i] < |dimensions|)
            && (Sum(dimensions, returned, k) == Accumulate(dimensions, limit, order)[k]
                <==> Sum(dimensions, taken[|returned|..], k) == 0)
  {
    hide Accumulate, Taken, Marked, BeforeMark;
    var m := Marked(dimensions, limit, order);
    var returned, taken := BeforeMark(m, |dimensions|), Taken(dimensions, limit, order);
    UnmarkedAreTaken(dimensions, limit, order);
    PrefixIsUnmarked(m, |returned|, |dimensions|);
    AccumulatorIsSum(dimensions, limit, order, k);
    assert taken == returned + taken[|returned|..];
    SumConcat(dimensions, returned, taken[|returned|..], k);
  }

  /** The item at one position of the order is taken. */
  predicate TakenAt(dimensions: seq<Dimensions>, limit: Dimensions, order: seq<nat>, i: nat)
    requires i < |order| && (forall j :: 0 <= j < |order| ==> order[j] < |dimensions|)
  {
    Takes(dimensions, limit, order[..i + 1])
  }

  ghost predicate Rejects(dimensions: seq<Dimensions>, limit: Dimensions, order: seq<nat>)
    requires forall j :: 0 <= j < |order| ==> order[j] < |dimensions|
  {
    exists n :: 0 <= n < |order| && !TakenAt(dimensions, limit, order, n)
  }

  /** Some item is taken after one that was not, and is not zero in dimension k. */
  ghost predicate TakesLater(dimensions: seq<Dimensions>, limit: Dimensions, order: seq<nat>, k: nat)
    requires k < FEE_DIMENSIONS && (forall j :: 0 <= j < |order| ==> order[j] < |dimensions|)
  {
    exists n, m ::
      0 <= n < m < |order| && !TakenAt(dimensions, limit, order, n) && TakenAt(dimensions, limit, order, m)
      && dimensions[order[m]][k] > 0
  }

  lemma BeforeMarkSnoc(m: seq<nat>, x: nat, mark: nat)
    ensures mark !in m ==> BeforeMark(m, mark) == m
    ensures BeforeMark(m + [x], mark) == if mark in m || x == mark then BeforeMark(m, mark) else m + [x]
  {
    var r := BeforeMark(m, mark);
    assert (m + [x])[..|r|] == m[..|r|];
    if |r| < |m| {
      assert m[|r|] in m;
      FirstMarkAt(m + [x], mark, |r|);
    } else {
      assert r == m;
      FirstMarkAt(m + [x], mark, if x == mark then |m| else |m| + 1);
    }
  }

  /** What one more item does to the list that is returned, and to the conditions above. */
  lemma ReturnedSnoc(dimensions: seq<Dimensions>, limit: Dimensions, order: seq<nat>, x: nat)
    requires x < |dimensions| && (forall j :: 0 <= j < |order| ==> order[j] < |dimensions|)
    requires |dimensions| in Marked(dimensions, limit, order) <==> Rejects(dimensions, limit, order)
    ensures var next := order + [x];
            var taken := TakenAt(dimensions, limit, next, |order|);
            && (|dimensions| in Marked(dimensions, limit, next) <==> Rejects(dimensions, limit, order) || !taken)
            && Taken(dimensions, limit, next)
               == (if taken then Taken(dimensions, limit, order) + [x] else Taken(dimensions, limit, order))
            && Returned(dimensions, limit, next)
               == (if taken && !Rejects(dimensions, limit, order) then Returned(dimensions, limit, order) + [x]
                   else Returned(dimensions, limit, order))
  {
    hide Rejects;
    var m := Marked(dimensions, limit, order);
    assert (order + [x])[..|order| + 1] == order + [x] && (order + [x])[..|order|] == order;
    Snoc(dimensions, limit, order, x);
    BeforeMarkSnoc(m, if TakenAt(dimensions, limit, order + [x], |order|) then x else |dimensions|, |dimensions|);
  }

  lemma TakenAtPrefix(dimensions: seq<Dimensions>, limit: Dimensions, order: seq<nat>, x: nat)
    requires x < |dimensions| && (forall j :: 0 <= j < |order| ==> order[j] < |dimensions|)
    ensures forall i :: 0 <= i < |order| ==>
              TakenAt(dimensions, limit, order + [x], i) == TakenAt(dimensions, limit, order, i)
  {
    hide Takes;
    forall i | 0 <= i < |order|
      ensures TakenAt(dimensions, limit, order + [x], i) == TakenAt(dimensions, limit, order, i)
    {
      assert (order + [x])[..i + 1] == order[..i + 1];
    }
  }

  lemma RejectsSnoc(dimensions: seq<Dimensions>, limit: Dimensions, order: seq<nat>, x: nat)
    requires x < |dimensions| && (forall j :: 0 <= j < |order| ==> order[j] < |dimensions|)
    ensures Rejects(dimensions, limit, order + [x])
            <==> Rejects(dimensions, limit, order) || !TakenAt(dimensions, limit, order + [x], |order|)
  {
    hide TakenAt;
    TakenAtPrefix(dimensions, limit, order, x);
  }

  lemma TakesLaterSnoc(dimensions: seq<Dimensions>, limit: Dimensions, order: seq<nat>, x: nat, k: nat)
    requires x < |dimensions| && (forall j :: 0 <= j < |order| ==> order[j] < |dimensions|) && k < FEE_DIMENSIONS
    ensures TakesLater(dimensions, limit, order + [x], k)
            <==> || TakesLater(dimensions, limit, order, k)
                 || (Rejects(dimensions, limit, order)
                     && TakenAt(dimensions, limit, order + [x], |order|) && dimensions[x][k] > 0)
  {
    hide TakenAt;
    TakenAtPrefix(dimensions, limit, order, x);
  }

  lemma {:induction false} LaterOnesAreLost(dimensions: seq<Dimensions>, limit: Dimensions, order: seq<nat>, k: nat)
    requires k < FEE_DIMENSIONS && (forall j :: 0 <= j < |order| ==> order[j] < |dimensions|)
    ensures |dimensions| in Marked(dimensions, limit, order) <==> Rejects(dimensions, limit, order)
    ensures LosesLaterOnes(dimensions, limit, order, k)
  {
    if order != [] {
      var init, x := order[..|order| - 1], order[|order| - 1];
      assert init + [x] == order;
      LaterOnesAreLost(dimensions, limit, init, k);
      OneMoreIsLost(dimensions, limit, init, x, k);
    }
  }

  ghost predicate LosesLaterOnes(dimensions: seq<Dimensions>, limit: Dimensions, order: seq<nat>, k: nat)
    requires k < FEE_DIMENSIONS && (forall j :: 0 <= j < |order| ==> order[j] < |dimensions|)
  {
    var returned, taken := Returned(dimensions, limit, order), Taken(dimensions, limit, order);
    && (forall i :: 0 <= i < |returned| ==> returned[i] < |dimensions|)
    && (forall i :: 0 <= i < |taken| ==> taken[i] < |dimensions|)
    && Sum(dimensions, returned, k) <= Sum(dimensions, taken, k)
    && (Sum(dimensions, returned, k) < Sum(dimensions, taken, k) <==> TakesLater(dimensions, limit, order, k))
  }

  lemma OneMoreIsLost(dimensions: seq<Dimensions>, limit: Dimensions, order: seq<nat>, x: nat, k: nat)
    requires x < |dimensions| && (forall j :: 0 <= j < |order| ==> order[j] < |dimensions|) && k < FEE_DIMENSIONS
    requires |dimensions| in Marked(dimensions, limit, order) <==> Rejects(dimensions, limit, order)
    requires LosesLaterOnes(dimensions, limit, order, k)
    ensures |dimensions| in Marked(dimensions, limit, order + [x]) <==> Rejects(dimensions, limit, order + [x])
    ensures LosesLaterOnes(dimensions, limit, order + [x], k)
  {
    hide Marked, BeforeMark, Returned, Rejects, TakesLater, Sum, Taken, TakenAt;
    ReturnedSnoc(dimensions, limit, order, x);
    RejectsSnoc(dimensions, limit, order, x);
    TakesLaterSnoc(dimensions, limit, order, x, k);
    SumSnoc(dimensions, Returned(dimensions, limit, order), x, k);
    SumSnoc(dimensions, Taken(dimensions, limit, order), x, k);
  }

  /** The list that is returned sums to less than the accumulator in some dimension exactly when an item
      that is not zero there is taken after one that was not. */
  lemma ShortExactlyWhen(dimensions: seq<Dimensions>, limit: Dimensions, order: seq<nat>, k: nat)
    requires k < FEE_DIMENSIONS && (forall j :: 0 <= j < |order| ==> order[j] < |dimensions|)
    ensures forall i :: 0 <= i < |Returned(dimensions, limit, order)| ==> Returned(dimensions, limit, order)[i] < |dimensions|
    ensures Sum(dimensions, Returned(dimensions, limit, order), k) < Accumulate(dimensions, limit, order)[k] as nat
            <==> TakesLater(dimensions, limit, order, k)
  {
    LaterOnesAreLost(dimensions, limit, order, k);
    AccumulatorIsSum(dimensions, limit, order, k);
  }

  /** All items together stay within the limit. */
  predicate AllFit(dimensions: seq<Dimensions>, limit: Dimensions, items: seq<nat>)
    requires forall j :: 0 <= j < |items| ==> items[j] < |dimensions|
  {
    forall k | 0 <= k < FEE_DIMENSIONS :: Sum(dimensions, items, k) <= limit[k] as nat
  }

  /** Everything is returned exactly when all items together stay within the limit. */
  lemma {:induction false} AllReturnedExactlyWhen(dimensions: seq<Dimensions>, limit: Dimensions, order: seq<nat>)
    requires forall j :: 0 <= j < |order| ==> order[j] < |dimensions|
    ensures Returned(dimensions, limit, order) == order <==> AllFit(dimensions, limit, order)
    ensures AllFit(dimensions, limit, order) ==> Taken(dimensions, limit, order) == order
    ensures Rejects(dimensions, limit, order) <==> !AllFit(dimensions, limit, order)
  {
    if order == [] {
    } else {
      var init, x := order[..|order| - 1], order[|order| - 1];
      assert init + [x] == order;
      AllReturnedExactlyWhen(dimensions, limit, init);
      LaterOnesAreLost(dimensions, limit, init, 0);
      ReturnedSnoc(dimensions, limit, init, x);
      RejectsSnoc(dimensions, limit, init, x);
      AllFitSnoc(dimensions, limit, init, x);
    }
  }

  lemma AllFitSnoc(dimensions: seq<Dimensions>, limit: Dimensions, order: seq<nat>, x: nat)
    requires x < |dimensions| && (forall j :: 0 <= j < |order| ==> order[j] < |dimensions|)
    ensures AllFit(dimensions, limit, order + [x]) ==> AllFit(dimensions, limit, order)
    ensures AllFit(dimensions, limit, order) && Taken(dimensions, limit, order) == order ==>
              (AllFit(dimensions, limit, order + [x]) <==> TakenAt(dimensions, limit, order + [x], |order|))
  {
    assert (order + [x])[..|order| + 1] == order + [x] && (order + [x])[..|order|] == order;
    forall k | 0 <= k < FEE_DIMENSIONS
      ensures Sum(dimensions, order + [x], k) == Sum(dimensions, order, k) + dimensions[x][k] as nat
      ensures Taken(dimensions, limit, order) == order ==>
                Accumulate(dimensions, limit, order)[k] as nat == Sum(dimensions, order, k)
    {
      SumSnoc(dimensions, order, x, k);
      AccumulatorIsSum(dimensions, limit, order, k);
    }
  }

  lemma {:induction false} PrefixIsUnmarked(m: seq<nat>, n: nat, mark: nat)
    requires n <= |m| && mark !in m[..n]
    ensures n <= |Unmarked(m, mark)| && Unmarked(m, mark)[..n] == m[..n]
    decreases |m|
  {
    if n < |m| {
      assert m[..|m| - 1][..n] == m[..n];
      PrefixIsUnmarked(m[..|m| - 1], n, mark);
    } else if n > 0 {
      assert m[..n] == m && m == m[..n - 1] + [m[n - 1]];
      assert m[n - 1] in m[..n];
      assert m[..n - 1][..n - 1] == m[..n - 1];
      PrefixIsUnmarked(m[..n - 1], n - 1, mark);
    }
  }

  /** Whenever the second of three items does not fit but the third does, the first and the third are
      taken and make up the accumulator, but only the first is returned. */
  lemma MiddleRejected(items: seq<Dimensions>, limit: Dimensions)
    requires |items| == 3 && Fits(NoUnits, items[0], limit)
    requires !Fits(items[0], items[1], limit) && Fits(items[0], items[2], limit)
    ensures Taken(items, limit, [0, 1, 2]) == [0, 2]
    ensures Returned(items, limit, [0, 1, 2]) == [0]
    ensures IsSum(Accumulate(items, limit, [0, 1, 2]), items[0], items[2])
  {
    hide Accumulate, Marked, Taken, BeforeMark, FirstOver;
    FirstTaken(items, limit);
    assert [0] + [1] == [0, 1] && [0, 1] + [2] == [0, 1, 2];
    Snoc(items, limit, [0], 1);
    Snoc(items, limit, [0, 1], 2);
    assert Marked(items, limit, [0, 1, 2]) == [0, 3, 2];
    FirstMarkAt([0, 3, 2], 3, 1);
  }

  lemma FirstTaken(items: seq<Dimensions>, limit: Dimensions)
    requires items != [] && Fits(NoUnits, items[0], limit)
    ensures Accumulate(items, limit, [0]) == items[0] && Taken(items, limit, [0]) == [0] && Marked(items, limit, [0]) == [0]
  {
    hide Accumulate, Marked, Taken, FirstOver;
    NothingYet(items, limit);
    Snoc(items, limit, [], 0);
    assert [] + [0] == [0];
    SumIsUnique(Accumulate(items, limit, [0]), items[0], NoUnits, items[0]);
  }

  /** Such items, in the order of their weights. */
  lemma MiddleRejectedExample()
    ensures var limit: Dimensions := [10, 10, 10, 10, 10];
            var items: seq<Dimensions> := [[6, 0, 0, 0, 0], [7, 0, 0, 0, 0], [0, 8, 0, 0, 0]];
            && Fits(NoUnits, items[0], limit) && !Fits(items[0], items[1], limit) && Fits(items[0], items[2], limit)
            && items[2] != NoUnits
            && Weight(items[0], limit) < Weight(items[1], limit) < Weight(items[2], limit)
  {
    var limit: Dimensions := [10, 10, 10, 10, 10];
    var items: seq<Dimensions> := [[6, 0, 0, 0, 0], [7, 0, 0, 0, 0], [0, 8, 0, 0, 0]];
    assert items[0][0] as nat + items[1][0] as nat > limit[0];
    assert Part(0, 10) == 0 && Part(6, 10) == 23592 && Part(7, 10) == 32112 && Part(8, 10) == 41943;
  }
}
