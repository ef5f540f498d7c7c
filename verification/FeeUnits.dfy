/** The units a transaction is charged, and the estimate made before it is built. */
module FeeUnits {
  import opened Bytes
  import opened Fees
  import opened StateKeys

  /** The prices in units of the rules. */
  datatype Rules = Rules(
    baseCompute: U64,
    keyRead: U64, keyAllocate: U64, keyWrite: U64,
    valueRead: U64, valueAllocate: U64, valueWrite: U64,
    sponsorMaxChunks: seq<nat>)

  // ---- The checked operator ------------------------------------------------------------------

  /** Uint64Operator: a running total that remembers an overflow. `total` is the unbounded total. */
  class Operator {
    var v: U64
    var failed: bool
    ghost var total: nat

    ghost predicate Valid()
      reads this
    {
      (failed <==> total >= TWO_TO_THE_64) && (!failed ==> v == total)
    }

    constructor (v: U64)
      ensures Valid() && total == v
    {
      this.v, failed, total := v, false, v;
    }

    method Add(n: U64)
      requires Valid()
      modifies this
      ensures Valid() && total == old(total) + n as nat
    {
      total := total + n;
      if failed {
        return;
      }
      if v as nat + n as nat >= TWO_TO_THE_64 {
        failed := true;
        return;
      }
      v := v as nat + n as nat;
    }

    method MulAdd(a: U64, b: U64)
      requires Valid()
      modifies this
      ensures Valid() && total == old(total) + a as nat * b as nat
    {
      ghost var product := a as nat * b as nat;
      total := total + product;
      if failed {
        return;
      }
      if a as nat * b as nat >= TWO_TO_THE_64 {
        failed := true;
        return;
      }
      if v as nat + a as nat * b as nat >= TWO_TO_THE_64 {
        failed := true;
        return;
      }
      v := v as nat + a as nat * b as nat;
    }

    /** Value fails exactly when the total overflows; an intermediate overflow is never lost. */
    method Value() returns (r: Option<U64>)
      requires Valid()
      ensures r == if total < TWO_TO_THE_64 then Some(total) else None
    {
      r := if failed then None else Some(v);
    }
  }

  // ---- What is charged -----------------------------------------------------------------------

  function SumOf(xs: seq<nat>): nat {
    if xs == [] then 0 else SumOf(xs[..|xs| - 1]) + xs[|xs| - 1]
  }

  /** The charge for keys of these sizes, at a price for each key and one for each chunk. */
  function StorageTotal(chunks: seq<nat>, perKey: U64, perChunk: U64): nat {
    if chunks == [] then 0
    else
      StorageTotal(chunks[..|chunks| - 1], perKey, perChunk) + (perKey as nat + chunks[|chunks| - 1] * perChunk as nat)
  }

  /** The compute and storage totals, before checking for overflow. */
  datatype Totals = Totals(compute: nat, reading: nat, allocating: nat, writing: nat)

  function TotalsOf(r: Rules, compute: seq<nat>, chunks: seq<nat>): Totals {
    Totals(r.baseCompute as nat + SumOf(compute),
           StorageTotal(chunks, r.keyRead, r.valueRead),
           StorageTotal(chunks, r.keyAllocate, r.valueAllocate),
           StorageTotal(chunks, r.keyWrite, r.valueWrite))
  }

  predicate InRange(t: Totals) {
    t.compute < TWO_TO_THE_64 && t.reading < TWO_TO_THE_64 && t.allocating < TWO_TO_THE_64 && t.writing < TWO_TO_THE_64
  }

  /** The units with a bandwidth; None when a total overflows. */
  function UnitsOf(bandwidth: U64, t: Totals): Option<Dimensions> {
    if InRange(t) then Some([bandwidth, t.compute, t.reading, t.allocating, t.writing]) else None
  }

  type Chunks = n: nat | n < 65536

  method ComputeCost(base: U64, compute: seq<U64>) returns (r: Option<U64>)
    ensures var total := base as nat + SumOf(compute);
            r == if total < TWO_TO_THE_64 then Some(total) else None
  {
    var op := new Operator(base);
    var i := 0;
    assert compute[..0] == [];
    while i < |compute|
      invariant i <= |compute| && op.Valid() && fresh(op)
      invariant op.total == base as nat + SumOf(compute[..i])
    {
      assert compute[..i + 1][..i] == compute[..i];
      op.Add(compute[i]);
      i := i + 1;
    }
    assert compute[..i] == compute;
    r := op.Value();
  }

  /** The storage loop that both computations share: three totals over the same sizes. */
  method StorageCosts(r: Rules, chunks: seq<Chunks>) returns (costs: Option<(U64, U64, U64)>)
    ensures var reading, allocating, writing :=
              StorageTotal(chunks, r.keyRead, r.valueRead), StorageTotal(chunks, r.keyAllocate, r.valueAllocate),
              StorageTotal(chunks, r.keyWrite, r.valueWrite);
            costs == if reading < TWO_TO_THE_64 && allocating < TWO_TO_THE_64 && writing < TWO_TO_THE_64
                     then Some((reading, allocating, writing)) else None
  {
    var readsOp := new Operator(0);
    var allocatesOp := new Operator(0);
    var writesOp := new Operator(0);
    var i := 0;
    assert chunks[..0] == [];
    while i < |chunks|
      invariant i <= |chunks|
      invariant readsOp.Valid() && allocatesOp.Valid() && writesOp.Valid()
      invariant fresh(readsOp) && fresh(allocatesOp) && fresh(writesOp)
      invariant readsOp != allocatesOp && readsOp != writesOp && allocatesOp != writesOp
      invariant readsOp.total == StorageTotal(chunks[..i], r.keyRead, r.valueRead)
      invariant allocatesOp.total == StorageTotal(chunks[..i], r.keyAllocate, r.valueAllocate)
      invariant writesOp.total == StorageTotal(chunks[..i], r.keyWrite, r.valueWrite)
    {
      assert chunks[..i + 1][..i] == chunks[..i];
      readsOp.Add(r.keyRead);
      allocatesOp.Add(r.keyAllocate);
      writesOp.Add(r.keyWrite);
      readsOp.MulAdd(chunks[i], r.valueRead);
      allocatesOp.MulAdd(chunks[i], r.valueAllocate);
      writesOp.MulAdd(chunks[i], r.valueWrite);
      i := i + 1;
    }
    assert chunks[..i] == chunks;
    var reading := readsOp.Value();
    var allocating := allocatesOp.Value();
    var writing := writesOp.Value();
    if reading.None? || allocating.None? || writing.None? {
      return None;
    }
    costs := Some((reading.value, allocating.value, writing.value));
  }

  /** The charge in plain arithmetic: the size; the base price and the compute units; and for each kind of
      access the price per key times the number of keys, and the price per chunk times the number of
      chunks. It fails exactly when one of these overflows. */
  ghost predicate IsCharge(r: Rules, bandwidth: U64, compute: seq<nat>, chunks: seq<nat>, units: Option<Dimensions>) {
    var computing := r.baseCompute as nat + SumOf(compute);
    var reading := |chunks| * r.keyRead as nat + SumOf(chunks) * r.valueRead as nat;
    var allocating := |chunks| * r.keyAllocate as nat + SumOf(chunks) * r.valueAllocate as nat;
    var writing := |chunks| * r.keyWrite as nat + SumOf(chunks) * r.valueWrite as nat;
    && (units.Some? <==>
          && computing < 0x1_0000_0000_0000_0000 && reading < 0x1_0000_0000_0000_0000
          && allocating < 0x1_0000_0000_0000_0000 && writing < 0x1_0000_0000_0000_0000)
    && (units.Some? ==> units.value == [bandwidth, computing, reading, allocating, writing])
  }

  lemma {:induction false} StorageTotalIs(chunks: seq<nat>, perKey: U64, perChunk: U64)
    ensures StorageTotal(chunks, perKey, perChunk) == |chunks| * perKey as nat + SumOf(chunks) * perChunk as nat
  {
    if chunks != [] {
      var init, last := chunks[..|chunks| - 1], chunks[|chunks| - 1];
      StorageTotalIs(init, perKey, perChunk);
      Distribute(|init|, 1, perKey as nat);
      Distribute(SumOf(init), last, perChunk as nat);
    }
  }

  lemma Distribute(a: nat, b: nat, x: nat)
    ensures (a + b) * x == a * x + b * x
  {
  }

  lemma ChargeIs(r: Rules, bandwidth: U64, compute: seq<nat>, chunks: seq<nat>)
    ensures IsCharge(r, bandwidth, compute, chunks, UnitsOf(bandwidth, TotalsOf(r, compute, chunks)))
  {
    StorageTotalIs(chunks, r.keyRead, r.valueRead);
    StorageTotalIs(chunks, r.keyAllocate, r.valueAllocate);
    StorageTotalIs(chunks, r.keyWrite, r.valueWrite);
    hide StorageTotal, SumOf;
  }

  /** Transaction.Units of a transaction of some size: `compute` are the compute units of its actions and
      of its auth, and `keys` are its state keys, in the order in which the map is ranged over. */
  method Units(r: Rules, size: U64, compute: seq<U64>, keys: seq<Key>) returns (units: Option<Dimensions>)
    ensures units == if forall i :: 0 <= i < |keys| ==> Valid(keys[i])
                     then UnitsOf(size, TotalsOf(r, compute, ChunksOf(keys))) else None
    ensures if forall i :: 0 <= i < |keys| ==> Valid(keys[i]) then IsCharge(r, size, compute, ChunksOf(keys), units)
            else units.None?
  {
    if forall i :: 0 <= i < |keys| ==> Valid(keys[i]) {
      ChargeIs(r, size, compute, ChunksOf(keys));
    }
    var maxComputeUnits := ComputeCost(r.baseCompute, compute);
    var chunks: seq<Chunks> := [];
    var i := 0;
    while i < |keys|
      invariant i <= |keys| && (forall k :: 0 <= k < i ==> Valid(keys[k]))
      invariant chunks == ChunksOf(keys[..i])
    {
      if !Valid(keys[i]) {
        return None;
      }
      assert keys[..i + 1] == keys[..i] + [keys[i]];
      chunks := chunks + [MaxChunks(keys[i])];
      i := i + 1;
    }
    assert keys[..i] == keys;
    var costs := StorageCosts(r, chunks);
    if maxComputeUnits.None? || costs.None? {
      return None;
    }
    units := Some([size, maxComputeUnits.value, costs.value.0, costs.value.1, costs.value.2]);
  }

  /** The chunk sizes that keys declare. */
  function ChunksOf(keys: seq<Key>): (chunks: seq<Chunks>)
    requires forall i :: 0 <= i < |keys| ==> Valid(keys[i])
    ensures |chunks| == |keys| && forall i :: 0 <= i < |keys| ==> chunks[i] == MaxChunks(keys[i])
  {
    seq(|keys|, i requires 0 <= i < |keys| => MaxChunks(keys[i]))
  }

  const MAX_BASE_SIZE := 90

  /** The estimated bandwidth: the largest base, one more byte, the action bytes and the largest auth,
      added up as words. */
  function EstimatedBandwidth(actions: seq<seq<Byte>>, authBandwidth: U64): nat {
    MAX_BASE_SIZE + 1 + SumOf(Lengths(actions)) + authBandwidth as nat
  }

  function Lengths(actions: seq<seq<Byte>>): (r: seq<nat>)
    ensures |r| == |actions| && forall i :: 0 <= i < |r| ==> r[i] == |actions[i]|
  {
    seq(|actions|, i requires 0 <= i < |actions| => |actions[i]|)
  }

  /** EstimateUnits, given what the actions and the auth factory say: the action bytes, the sizes of each
      action's keys, or None for a malformed key, and the compute units of the actions and of the auth. */
  method EstimateUnits(
    r: Rules, actions: seq<seq<Byte>>, sizes: seq<Option<seq<Chunks>>>, compute: seq<U64>, authBandwidth: U64,
    sponsor: seq<Chunks>)
    returns (units: Option<Dimensions>)
    requires |sizes| == |actions|
    ensures units == if forall i :: 0 <= i < |sizes| ==> sizes[i].Some?
                     then UnitsOf(EstimatedBandwidth(actions, authBandwidth) % TWO_TO_THE_64,
                                  TotalsOf(r, compute, Flatten(Sizes(sizes)) + sponsor))
                     else None
    ensures if forall i :: 0 <= i < |sizes| ==> sizes[i].Some?
            then IsCharge(r, (91 + SumOf(Lengths(actions)) + authBandwidth as nat) % 0x1_0000_0000_0000_0000,
                          compute, Flatten(Sizes(sizes)) + sponsor, units)
            else units.None?
  {
    ChargeIs(r, EstimatedBandwidth(actions, authBandwidth) % TWO_TO_THE_64, compute, Flatten(Sizes(sizes)) + sponsor);
    var bandwidth, stateKeysMaxChunks := EstimateActions(actions, sizes);
    if stateKeysMaxChunks.None? {
      return None;
    }
    bandwidth := bandwidth + authBandwidth;
    var cost := ComputeCost(r.baseCompute, compute);
    var costs := StorageCosts(r, stateKeysMaxChunks.value + sponsor);
    if cost.None? || costs.None? {
      return None;
    }
    units := Some([bandwidth % TWO_TO_THE_64, cost.value, costs.value.0, costs.value.1, costs.value.2]);
  }

  /** The loop of EstimateUnits over the actions: the bandwidth so far and the key sizes of all of them. */
  method EstimateActions(actions: seq<seq<Byte>>, sizes: seq<Option<seq<Chunks>>>)
    returns (bandwidth: nat, chunks: Option<seq<Chunks>>)
    requires |sizes| == |actions|
    ensures chunks == if forall i :: 0 <= i < |sizes| ==> sizes[i].Some? then Some(Flatten(Sizes(sizes))) else None
    ensures chunks.Some? ==> bandwidth == MAX_BASE_SIZE + 1 + SumOf(Lengths(actions))
  {
    bandwidth := MAX_BASE_SIZE + 1;
    var stateKeysMaxChunks: seq<Chunks> := [];
    var i := 0;
    assert SumOf(Lengths(actions)[..0]) == 0 && Flatten(Sizes(sizes[..0])) == [];
    while i < |actions|
      invariant i <= |actions| && (forall k :: 0 <= k < i ==> sizes[k].Some?)
      invariant bandwidth == MAX_BASE_SIZE + 1 + SumOf(Lengths(actions)[..i])
      invariant stateKeysMaxChunks == Flatten(Sizes(sizes[..i]))
    {
      if sizes[i].None? {
        return bandwidth, None;
      }
      assert Lengths(actions)[..i + 1][..i] == Lengths(actions)[..i];
      assert Sizes(sizes[..i + 1])[..i] == Sizes(sizes[..i]);
      bandwidth := bandwidth + |actions[i]|;
      stateKeysMaxChunks := stateKeysMaxChunks + sizes[i].value;
      i := i + 1;
    }
    assert Lengths(actions)[..i] == Lengths(actions) && sizes[..i] == sizes;
    chunks := Some(stateKeysMaxChunks);
  }

  function Sizes(sizes: seq<Option<seq<Chunks>>>): (r: seq<seq<Chunks>>)
    ensures |r| == |sizes| && forall i :: 0 <= i < |r| ==> r[i] == if sizes[i].Some? then sizes[i].value else []
  {
    seq(|sizes|, i requires 0 <= i < |sizes| => if sizes[i].Some? then sizes[i].value else [])
  }
}
