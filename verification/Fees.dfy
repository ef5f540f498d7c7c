/** Fee dimensions and their checked arithmetic, and the fee manager that meters a block. */
module Fees {
  import opened Bytes

  const FEE_DIMENSIONS := 5

  /** One word for each fee dimension: bandwidth, compute, and reading, allocating and writing storage. */
  type Dimensions = d: seq<U64> | |d| == FEE_DIMENSIONS witness [0, 0, 0, 0, 0]

  const NoUnits: Dimensions := [0, 0, 0, 0, 0]

  /** Whether `a + d` stays within `limit` in every dimension. */
  ghost predicate Fits(a: Dimensions, d: Dimensions, limit: Dimensions) {
    forall i :: 0 <= i < FEE_DIMENSIONS ==> a[i] as nat + d[i] as nat <= limit[i]
  }

  /** `r` is `a + b` in every dimension. */
  ghost predicate IsSum(r: Dimensions, a: Dimensions, b: Dimensions) {
    forall i :: 0 <= i < FEE_DIMENSIONS ==> r[i] == a[i] as nat + b[i] as nat
  }

  /** The inner product of the first n dimensions. */
  function Dot(a: Dimensions, b: Dimensions, n: nat): nat
    requires n <= FEE_DIMENSIONS
  {
    if n == 0 then 0 else Dot(a, b, n - 1) + a[n - 1] as nat * b[n - 1] as nat
  }

  lemma {:induction false} DotGrows(a: Dimensions, b: Dimensions, m: nat, n: nat)
    requires m <= n <= FEE_DIMENSIONS
    ensures Dot(a, b, m) <= Dot(a, b, n)
    decreases n
  {
    if m < n {
      DotGrows(a, b, m, n - 1);
    }
  }

  /** More units of everything at the same prices cost no less. */
  lemma {:induction false} DotIsMonotone(prices: Dimensions, a: Dimensions, b: Dimensions, n: nat)
    requires n <= FEE_DIMENSIONS && (forall i :: 0 <= i < n ==> a[i] <= b[i])
    ensures Dot(prices, a, n) <= Dot(prices, b, n)
  {
    if n > 0 {
      DotIsMonotone(prices, a, b, n - 1);
      ProductIsMonotone(prices[n - 1], a[n - 1], b[n - 1]);
    }
  }

  lemma ProductIsMonotone(x: nat, a: nat, b: nat)
    requires a <= b
    ensures x * a <= x * b
  {
  }

  /** Add fails exactly when some dimension overflows. */
  method Add(a: Dimensions, b: Dimensions) returns (r: Option<Dimensions>)
    ensures r.Some? <==> forall i :: 0 <= i < FEE_DIMENSIONS ==> a[i] as nat + b[i] as nat < TWO_TO_THE_64
    ensures r.Some? ==> IsSum(r.value, a, b)
  {
    var d: Dimensions := NoUnits;
    var i := 0;
    while i < FEE_DIMENSIONS
      invariant i <= FEE_DIMENSIONS
      invariant forall k :: 0 <= k < i ==> d[k] == a[k] as nat + b[k] as nat
    {
      var v := a[i] as nat + b[i] as nat;
      if v >= TWO_TO_THE_64 {
        return None;
      }
      d := d[i := v];
      i := i + 1;
    }
    r := Some(d);
  }

  /** MulSum is the inner product, and fails exactly when that overflows: no product and no partial sum
      overflows unless the total does. */
  method MulSum(a: Dimensions, b: Dimensions) returns (r: Option<U64>)
    ensures r == if Dot(a, b, FEE_DIMENSIONS) < TWO_TO_THE_64 then Some(Dot(a, b, FEE_DIMENSIONS)) else None
  {
    var val: U64 := 0;
    var i := 0;
    while i < FEE_DIMENSIONS
      invariant i <= FEE_DIMENSIONS
      invariant val == Dot(a, b, i)
    {
      var v := a[i] as nat * b[i] as nat;
      DotGrows(a, b, i + 1, FEE_DIMENSIONS);
      if v >= TWO_TO_THE_64 {
        return None;
      }
      if val as nat + v >= TWO_TO_THE_64 {
        return None;
      }
      val := val as nat + v;
      i := i + 1;
    }
    r := Some(val);
  }

  /** CanAdd holds exactly when the sum stays within the limit. */
  method CanAdd(d: Dimensions, a: Dimensions, limit: Dimensions) returns (ok: bool)
    ensures ok == Fits(d, a, limit)
  {
    var i := 0;
    while i < FEE_DIMENSIONS
      invariant i <= FEE_DIMENSIONS
      invariant forall k :: 0 <= k < i ==> d[k] as nat + a[k] as nat <= limit[k]
    {
      if d[i] as nat + a[i] as nat >= TWO_TO_THE_64 || d[i] as nat + a[i] as nat > limit[i] {
        return false;
      }
      i := i + 1;
    }
    ok := true;
  }

  // ---- The fee manager -----------------------------------------------------------------------

  /** The unit prices of a block and the units consumed so far. */
  datatype Manager = Manager(prices: Dimensions, consumed: Dimensions)

  /** The first dimension in which consuming `units` would exceed the limit, if any. */
  function FirstOver(consumed: Dimensions, units: Dimensions, limit: Dimensions, from: nat): (r: Option<nat>)
    requires from <= FEE_DIMENSIONS
    ensures r.Some? ==> from <= r.value < FEE_DIMENSIONS && consumed[r.value] as nat + units[r.value] as nat > limit[r.value]
    ensures r.None? ==> forall i :: from <= i < FEE_DIMENSIONS ==> consumed[i] as nat + units[i] as nat <= limit[i]
    decreases FEE_DIMENSIONS - from
  {
    if from == FEE_DIMENSIONS then None
    else if consumed[from] as nat + units[from] as nat > limit[from] then Some(from)
    else FirstOver(consumed, units, limit, from + 1)
  }

  function Plus(a: Dimensions, b: Dimensions): (r: Dimensions)
    requires forall i :: 0 <= i < FEE_DIMENSIONS ==> a[i] as nat + b[i] as nat < TWO_TO_THE_64
    ensures IsSum(r, a, b)
  {
    seq(FEE_DIMENSIONS, i requires 0 <= i < FEE_DIMENSIONS => a[i] as nat + b[i] as nat)
  }

  /** Consume takes all of the units or none. */
  function Consume(m: Manager, units: Dimensions, limit: Dimensions): (r: Option<Manager>)
    ensures r.Some? <==> Fits(m.consumed, units, limit)
    ensures r.Some? ==> r.value.prices == m.prices && IsSum(r.value.consumed, m.consumed, units)
  {
    if FirstOver(m.consumed, units, limit, 0).Some? then None
    else Some(m.(consumed := Plus(m.consumed, units)))
  }

  /** The fee for some units depends on the prices only. */
  function Fee(prices: Dimensions, units: Dimensions): Option<U64> {
    if Dot(prices, units, FEE_DIMENSIONS) < TWO_TO_THE_64 then Some(Dot(prices, units, FEE_DIMENSIONS)) else None
  }

  /** The fee in plain terms. */
  function Cost(prices: Dimensions, units: Dimensions): nat {
    prices[0] as nat * units[0] as nat + prices[1] as nat * units[1] as nat + prices[2] as nat * units[2] as nat
    + prices[3] as nat * units[3] as nat + prices[4] as nat * units[4] as nat
  }

  lemma FeeIsCost(prices: Dimensions, units: Dimensions)
    ensures Dot(prices, units, 5) == Cost(prices, units)
    ensures Fee(prices, units)
         == if Cost(prices, units) < 0x1_0000_0000_0000_0000 then Some(Cost(prices, units)) else None
  {
    assert Dot(prices, units, 1) == prices[0] as nat * units[0] as nat;
    assert Dot(prices, units, 2) == Dot(prices, units, 1) + prices[1] as nat * units[1] as nat;
    assert Dot(prices, units, 3) == Dot(prices, units, 2) + prices[2] as nat * units[2] as nat;
    assert Dot(prices, units, 4) == Dot(prices, units, 3) + prices[3] as nat * units[3] as nat;
  }
}
