/** Why the estimate covers the charge: keys that actions share are charged once but estimated for each
    action, and the fixed part of the bandwidth leaves room for some framing. */
module FeeEstimate {
  import opened Bytes
  import opened Canoto
  import opened Fees
  import opened StateKeys
  import opened TxMessages
  import opened FeeUnits

  // ---- Storage: a union against a concatenation ----------------------------------------------

  lemma {:induction false} TotalConcat(a: seq<nat>, b: seq<nat>, perKey: U64, perChunk: U64)
    ensures StorageTotal(a + b, perKey, perChunk) == StorageTotal(a, perKey, perChunk) + StorageTotal(b, perKey, perChunk)
    decreases |b|
  {
    if b == [] {
      assert a + b == a;
    } else {
      assert (a + b)[..|a + b| - 1] == a + b[..|b| - 1];
      TotalConcat(a, b[..|b| - 1], perKey, perChunk);
    }
  }

  lemma TotalWithout(a: seq<nat>, p: nat, perKey: U64, perChunk: U64)
    requires p < |a|
    ensures StorageTotal(a, perKey, perChunk)
         == StorageTotal(Without(a, p), perKey, perChunk) + (perKey as nat + a[p] * perChunk as nat)
  {
    assert a == a[..p] + ([a[p]] + a[p + 1..]);
    TotalConcat(a[..p], [a[p]] + a[p + 1..], perKey, perChunk);
    TotalConcat([a[p]], a[p + 1..], perKey, perChunk);
    TotalConcat(a[..p], a[p + 1..], perKey, perChunk);
    var none: seq<nat> := [];
    assert [a[p]][..0] == none;
  }

  /** The same sizes in another order cost the same. */
  lemma {:induction false} TotalReordered(a: seq<nat>, b: seq<nat>, perKey: U64, perChunk: U64)
    requires multiset(a) == multiset(b)
    ensures StorageTotal(a, perKey, perChunk) == StorageTotal(b, perKey, perChunk)
    decreases |a|
  {
    if a == [] {
      assert |multiset(b)| == 0;
    } else {
      var n := |a| - 1;
      assert a[n] in multiset(a);
      var p :| 0 <= p < |b| && b[p] == a[n];
      assert Without(a, n) == a[..n];
      WithoutOne(a, n);
      WithoutOne(b, p);
      TotalReordered(a[..n], Without(b, p), perKey, perChunk);
      TotalWithout(b, p, perKey, perChunk);
    }
  }

  ghost predicate AllValid(keys: seq<Key>) {
    forall i :: 0 <= i < |keys| ==> Valid(keys[i])
  }

  lemma ChunksWithout(keys: seq<Key>, p: nat, perKey: U64, perChunk: U64)
    requires p < |keys| && AllValid(keys)
    ensures AllValid(Without(keys, p))
    ensures StorageTotal(ChunksOf(keys), perKey, perChunk)
         == StorageTotal(ChunksOf(Without(keys, p)), perKey, perChunk) + (perKey as nat + MaxChunks(keys[p]) * perChunk as nat)
  {
    assert Without(ChunksOf(keys), p) == ChunksOf(Without(keys, p));
    TotalWithout(ChunksOf(keys), p, perKey, perChunk);
  }

  ghost predicate Occur(keys: seq<Key>, listed: seq<Key>) {
    && (forall i :: 0 <= i < |keys| ==> keys[i] in listed)
    && (forall i, j :: 0 <= i < j < |keys| ==> keys[i] != keys[j])
  }

  lemma OccurWithout(keys: seq<Key>, listed: seq<Key>, p: nat)
    requires keys != [] && Occur(keys, listed) && p < |listed| && listed[p] == keys[|keys| - 1]
    ensures Occur(keys[..|keys| - 1], Without(listed, p))
  {
    WithoutOne(listed, p);
  }

  /** Distinct keys cost no more than any list in which they all occur. */
  lemma {:induction false} UnionCostsLess(keys: seq<Key>, listed: seq<Key>, perKey: U64, perChunk: U64)
    requires AllValid(listed) && Occur(keys, listed)
    ensures AllValid(keys)
    ensures StorageTotal(ChunksOf(keys), perKey, perChunk) <= StorageTotal(ChunksOf(listed), perKey, perChunk)
    decreases |keys|
  {
    if keys != [] {
      var n := |keys| - 1;
      var p :| 0 <= p < |listed| && listed[p] == keys[n];
      OccurWithout(keys, listed, p);
      ChunksWithout(listed, p, perKey, perChunk);
      UnionCostsLess(keys[..n], Without(listed, p), perKey, perChunk);
      assert AllValid(keys) by {
        assert forall i :: 0 <= i < n ==> keys[..n][i] == keys[i];
      }
      assert Without(keys, n) == keys[..n];
      ChunksWithout(keys, n, perKey, perChunk);
    }
  }

  lemma ChunkCost(x: nat, y: nat, perChunk: U64)
    requires x <= y
    ensures x * perChunk as nat <= y * perChunk as nat
  {
  }

  /** Sizes within some maxima cost no more than the maxima, of which there may be more. */
  lemma {:induction false} MaximaCostMore(chunks: seq<nat>, maxima: seq<nat>, perKey: U64, perChunk: U64)
    requires |chunks| <= |maxima| && (forall i :: 0 <= i < |chunks| ==> chunks[i] <= maxima[i])
    ensures StorageTotal(chunks, perKey, perChunk) <= StorageTotal(maxima, perKey, perChunk)
    decreases |maxima|
  {
    if |chunks| == |maxima| && chunks != [] {
      var n := |chunks| - 1;
      MaximaCostMore(chunks[..n], maxima[..n], perKey, perChunk);
      ChunkCost(chunks[n], maxima[n], perChunk);
    } else if |chunks| < |maxima| {
      MaximaCostMore(chunks, maxima[..|maxima| - 1], perKey, perChunk);
    }
  }

  lemma {:induction false} FlattenValid(lists: seq<seq<Key>>)
    requires forall i :: 0 <= i < |lists| ==> AllValid(lists[i])
    ensures AllValid(Flatten(lists))
  {
    if lists != [] {
      FlattenValid(lists[..|lists| - 1]);
    }
  }

  /** Each action's real keys have the sizes estimated for it. */
  ghost predicate AsEstimated(keys: seq<seq<Key>>, sizes: seq<seq<Chunks>>) {
    && |keys| == |sizes|
    && forall i :: 0 <= i < |keys| ==> AllValid(keys[i]) && multiset(ChunksOf(keys[i])) == multiset(sizes[i])
  }

  lemma {:induction false} ActionsCostAsEstimated(keys: seq<seq<Key>>, sizes: seq<seq<Chunks>>, perKey: U64, perChunk: U64)
    requires AsEstimated(keys, sizes)
    ensures AllValid(Flatten(keys))
    ensures StorageTotal(ChunksOf(Flatten(keys)), perKey, perChunk) == StorageTotal(Flatten(sizes), perKey, perChunk)
    decreases |keys|
  {
    FlattenValid(keys);
    if keys != [] {
      var n := |keys| - 1;
      ActionsCostAsEstimated(keys[..n], sizes[..n], perKey, perChunk);
      ListedCost(Flatten(keys[..n]), keys[n], perKey, perChunk);
      TotalConcat(Flatten(sizes[..n]), sizes[n], perKey, perChunk);
      TotalReordered(ChunksOf(keys[n]), sizes[n], perKey, perChunk);
    }
  }

  /** The charge for the union of the keys of the actions and the sponsor is covered by the estimate. */
  lemma StorageCovered(
    keys: seq<Key>, actions: seq<seq<Key>>, sponsor: seq<Key>, sizes: seq<seq<Chunks>>, maxima: seq<Chunks>,
    perKey: U64, perChunk: U64)
    requires AsEstimated(actions, sizes) && AllValid(sponsor)
    requires |sponsor| <= |maxima| && (forall i :: 0 <= i < |sponsor| ==> MaxChunks(sponsor[i]) <= maxima[i])
    requires Occur(keys, Flatten(actions) + sponsor)
    ensures AllValid(keys)
    ensures StorageTotal(ChunksOf(keys), perKey, perChunk) <= StorageTotal(Flatten(sizes) + maxima, perKey, perChunk)
  {
    ActionsCostAsEstimated(actions, sizes, perKey, perChunk);
    ListedCost(Flatten(actions), sponsor, perKey, perChunk);
    UnionCostsLess(keys, Flatten(actions) + sponsor, perKey, perChunk);
    TotalConcat(Flatten(sizes), maxima, perKey, perChunk);
    MaximaCostMore(ChunksOf(sponsor), maxima, perKey, perChunk);
  }

  lemma ListedCost(a: seq<Key>, b: seq<Key>, perKey: U64, perChunk: U64)
    requires AllValid(a) && AllValid(b)
    ensures AllValid(a + b)
    ensures StorageTotal(ChunksOf(a + b), perKey, perChunk)
         == StorageTotal(ChunksOf(a), perKey, perChunk) + StorageTotal(ChunksOf(b), perKey, perChunk)
  {
    assert ChunksOf(a + b) == ChunksOf(a) + ChunksOf(b);
    TotalConcat(ChunksOf(a), ChunksOf(b), perKey, perChunk);
  }

  // ---- Compute -------------------------------------------------------------------------------

  lemma {:induction false} ComputeCovered(compute: seq<nat>, estimated: seq<nat>)
    requires |compute| == |estimated| && (forall i :: 0 <= i < |compute| ==> compute[i] <= estimated[i])
    ensures SumOf(compute) <= SumOf(estimated)
  {
    if compute != [] {
      ComputeCovered(compute[..|compute| - 1], estimated[..|estimated| - 1]);
    }
  }

  /** If the estimate succeeds, so does the charge, and the estimate is at least the charge in compute and
      in every kind of storage. */
  lemma EstimateDominates(
    r: Rules, keys: seq<Key>, actions: seq<seq<Key>>, sponsor: seq<Key>, sizes: seq<seq<Chunks>>, maxima: seq<Chunks>,
    compute: seq<nat>, estimated: seq<nat>)
    requires AsEstimated(actions, sizes) && AllValid(sponsor)
    requires |sponsor| <= |maxima| && (forall i :: 0 <= i < |sponsor| ==> MaxChunks(sponsor[i]) <= maxima[i])
    requires Occur(keys, Flatten(actions) + sponsor)
    requires |compute| == |estimated| && (forall i :: 0 <= i < |compute| ==> compute[i] <= estimated[i])
    requires InRange(TotalsOf(r, estimated, Flatten(sizes) + maxima))
    ensures AllValid(keys)
    ensures var charged, estimate := TotalsOf(r, compute, ChunksOf(keys)), TotalsOf(r, estimated, Flatten(sizes) + maxima);
            && InRange(charged)
            && charged.compute <= estimate.compute && charged.reading <= estimate.reading
            && charged.allocating <= estimate.allocating && charged.writing <= estimate.writing
  {
    ComputeCovered(compute, estimated);
    StorageCovered(keys, actions, sponsor, sizes, maxima, r.keyRead, r.valueRead);
    StorageCovered(keys, actions, sponsor, sizes, maxima, r.keyAllocate, r.valueAllocate);
    StorageCovered(keys, actions, sponsor, sizes, maxima, r.keyWrite, r.valueWrite);
  }

  // ---- Bandwidth -----------------------------------------------------------------------------

  /** The bytes in front of the action entries: a tag and a length for each. */
  function ActionFraming(actions: seq<seq<Byte>>): nat {
    if actions == [] then 0 else 1 + SizeUint(|actions[0]|) + ActionFraming(actions[1..])
  }

  function AuthFraming(auth: seq<Byte>): nat {
    if auth == [] then 0 else 1 + SizeUint(|auth|)
  }

  function Total(actions: seq<seq<Byte>>): nat {
    if actions == [] then 0 else |actions[0]| + Total(actions[1..])
  }

  lemma {:induction false} EntriesLength(actions: seq<seq<Byte>>)
    ensures |EncodeEntries(8 * TX_ACTIONS + LEN, actions)| == ActionFraming(actions) + Total(actions)
  {
    if actions != [] {
      EntriesLength(actions[1..]);
      assert |Varint(8 * TX_ACTIONS + LEN)| == 1;
      assert |Prefixed(actions[0])| == SizeBytes(actions[0]);
    }
  }

  function Pow128(n: nat): nat {
    if n == 0 then 1 else 128 * Pow128(n - 1)
  }

  lemma {:induction false} VarintFits(v: nat, n: nat)
    requires 0 < n && v < Pow128(n)
    ensures SizeUint(v) <= n
  {
    if v >= 128 {
      assert n > 1;
      VarintFits(v / 128, n - 1);
    }
  }

  /** A varint of a word is at most ten bytes. */
  lemma WordVarint(v: U64)
    ensures SizeUint(v) <= 10
  {
    assert Pow128(5) == 0x8_0000_0000;
    assert Pow128(10) == 0x40_0000_0000_0000_0000;
    VarintFits(v, 10);
  }

  lemma BaseLength(b: Base)
    ensures |Encode(BaseCodec(), b)| <= 54
  {
    var k := BaseCodec();
    WrittenBase(b, []);
    WordVarint(ZigZag(b.timestamp));
    if b.timestamp != 0 {
      VintField(BASE_TIMESTAMP, ZigZag(b.timestamp));
      assert |EncodePart(k, b, BASE_TIMESTAMP)| <= 11;
    }
    if b.chainId != EmptyId {
      BlobField(BASE_CHAIN_ID, b.chainId);
      assert |EncodePart(k, b, BASE_CHAIN_ID)| == 34;
    }
    if b.maxFee != 0 {
      FixedField(BASE_MAX_FEE, b.maxFee);
      assert |EncodePart(k, b, BASE_MAX_FEE)| == 9;
    }
  }

  /** The bytes of the nested base field. */
  function BaseField(tx: SerializeTx): nat {
    |EncodePart(SerializeTxCodec(), tx, TX_BASE)|
  }

  lemma BaseFieldLength(tx: SerializeTx)
    ensures BaseField(tx) <= 56
  {
    BaseLength(tx.base);
    var b := Encode(BaseCodec(), tx.base);
    if b != [] {
      BlobField(TX_BASE, b);
      assert |Prefixed(b)| == SizeBytes(b);
    }
  }

  lemma TxLength(tx: SerializeTx)
    ensures |Encode(SerializeTxCodec(), tx)|
         == BaseField(tx) + ActionFraming(tx.actions) + Total(tx.actions) + AuthFraming(tx.auth) + |tx.auth|
  {
    WrittenTx(tx, []);
    TxActionsPart(tx);
    BlobsField(TX_ACTIONS, tx.actions);
    EntriesLength(tx.actions);
    if tx.auth != [] {
      BlobField(TX_AUTH, tx.auth);
      assert |Prefixed(tx.auth)| == SizeBytes(tx.auth);
    }
  }

  lemma {:induction false} LengthsTotal(actions: seq<seq<Byte>>)
    ensures SumOf(Lengths(actions)) == Total(actions)
  {
    if actions != [] {
      LengthsTotal(actions[1..]);
      assert Lengths(actions) == [|actions[0]|] + Lengths(actions[1..]);
      SumOfCons(|actions[0]|, Lengths(actions[1..]));
    }
  }

  lemma {:induction false} SumOfCons(x: nat, xs: seq<nat>)
    ensures SumOf([x] + xs) == x + SumOf(xs)
  {
    if xs == [] {
      var none: seq<nat> := [];
      assert [x] + xs == [x] && [x][..0] == none;
    } else {
      assert ([x] + xs)[..|xs|] == [x] + xs[..|xs| - 1];
      SumOfCons(x, xs[..|xs| - 1]);
    }
  }

  /** The estimated bandwidth covers the transaction exactly when the base field and the framing of the
      actions and the auth take no more than the fixed part and what the auth leaves of its maximum. */
  lemma BandwidthCoveredWhen(tx: SerializeTx, authBandwidth: U64)
    requires |tx.auth| <= authBandwidth
    ensures |Encode(SerializeTxCodec(), tx)| <= EstimatedBandwidth(tx.actions, authBandwidth)
            <==> BaseField(tx) + ActionFraming(tx.actions) + AuthFraming(tx.auth)
                 <= 91 + (authBandwidth as nat - |tx.auth|)
  {
    TxLength(tx);
    LengthsTotal(tx.actions);
  }

  /** So it does whenever the framing is at most thirty-five bytes. */
  lemma BandwidthCovered(tx: SerializeTx, authBandwidth: U64)
    requires |tx.auth| <= authBandwidth && ActionFraming(tx.actions) + AuthFraming(tx.auth) <= 35
    ensures |Encode(SerializeTxCodec(), tx)| <= EstimatedBandwidth(tx.actions, authBandwidth)
  {
    BaseFieldLength(tx);
    BandwidthCoveredWhen(tx, authBandwidth);
  }

  lemma {:induction false} SmallActionFraming(actions: seq<seq<Byte>>)
    requires forall i :: 0 <= i < |actions| ==> |actions[i]| < 128
    ensures ActionFraming(actions) == 2 * |actions|
  {
    if actions != [] {
      SmallActionFraming(actions[1..]);
    }
  }

  /** Sixteen actions of fewer than 128 bytes with any auth of fewer than 16384 bytes are covered. */
  lemma SixteenActionsCovered(tx: SerializeTx, authBandwidth: U64)
    requires |tx.auth| <= authBandwidth && |tx.actions| <= 16 && |tx.auth| < 16384
    requires forall i :: 0 <= i < |tx.actions| ==> |tx.actions[i]| < 128
    ensures |Encode(SerializeTxCodec(), tx)| <= EstimatedBandwidth(tx.actions, authBandwidth)
  {
    SmallActionFraming(tx.actions);
    assert SizeUint(|tx.auth|) <= 2;
    BandwidthCovered(tx, authBandwidth);
  }

  lemma {:induction false} LargeActionFraming(actions: seq<seq<Byte>>)
    requires forall i :: 0 <= i < |actions| ==> |actions[i]| >= 16384
    ensures ActionFraming(actions) >= 4 * |actions|
  {
    if actions != [] {
      LargeActionFraming(actions[1..]);
      LargeSize(|actions[0]|);
    }
  }

  lemma LargeSize(n: nat)
    requires n >= 16384
    ensures SizeUint(n) >= 3
  {
    assert n / 128 >= 128 && n / 128 / 128 >= 1;
  }

  lemma ChainIdLength(b: Base)
    requires b.timestamp == 0 && b.chainId != EmptyId && b.maxFee == 0
    ensures |Encode(BaseCodec(), b)| == 34
  {
    WrittenBase(b, []);
    BlobField(BASE_CHAIN_ID, b.chainId);
  }

  /** Sixteen actions of 16384 bytes or more are not covered when the auth takes all it may and the base names
      a chain: sixty-four bytes of framing and thirty-six of base do not fit into ninety-one. */
  lemma LargeActionsFallShort(tx: SerializeTx)
    requires |tx.actions| == 16 && (forall i :: 0 <= i < |tx.actions| ==> |tx.actions[i]| >= 16384)
    requires tx.base.timestamp == 0 && tx.base.chainId != EmptyId && tx.base.maxFee == 0 && |tx.auth| < TWO_TO_THE_64
    ensures |Encode(SerializeTxCodec(), tx)| > EstimatedBandwidth(tx.actions, |tx.auth|)
  {
    LargeActionFraming(tx.actions);
    ChainIdLength(tx.base);
    BlobField(TX_BASE, Encode(BaseCodec(), tx.base));
    assert BaseField(tx) == 36;
    BandwidthCoveredWhen(tx, |tx.auth|);
  }

  /** One of them, with an empty auth. */
  function LargeTx(): SerializeTx {
    SerializeTx(Base(0, seq(ID_LEN, i => 1), 0), seq(16, i => Zeros(16384)), [])
  }

  lemma LargeTxFallsShort()
    ensures |Encode(SerializeTxCodec(), LargeTx())| > EstimatedBandwidth(LargeTx().actions, 0)
  {
    var tx := LargeTx();
    assert tx.base.chainId[0] == 1 && EmptyId[0] == 0;
    LargeActionsFallShort(tx);
  }

  // ---- The fee -------------------------------------------------------------------------------

  /** The fee generated from an estimate that covers the units covers the fee charged at those prices. */
  lemma MaxFeeCovers(prices: Dimensions, units: Dimensions, estimate: Dimensions)
    requires forall i :: 0 <= i < FEE_DIMENSIONS ==> units[i] <= estimate[i]
    requires Fee(prices, estimate).Some?
    ensures Fee(prices, units).Some? && Fee(prices, units).value <= Fee(prices, estimate).value
  {
    DotIsMonotone(prices, units, estimate, FEE_DIMENSIONS);
  }

  /** End to end: when the framing fits and the actions, the sponsor and the auth stay within what they
      declare, the transaction has units whenever it has an estimate, and the maximum fee generated from
      the estimate covers the fee charged at the same prices. */
  lemma EstimateCoversFee(
    r: Rules, prices: Dimensions, tx: SerializeTx, authBandwidth: U64,
    keys: seq<Key>, actions: seq<seq<Key>>, sponsor: seq<Key>, sizes: seq<seq<Chunks>>, maxima: seq<Chunks>,
    compute: seq<nat>, estimated: seq<nat>)
    requires |tx.auth| <= authBandwidth && ActionFraming(tx.actions) + AuthFraming(tx.auth) <= 35
    requires AsEstimated(actions, sizes) && AllValid(sponsor)
    requires |sponsor| <= |maxima| && (forall i :: 0 <= i < |sponsor| ==> MaxChunks(sponsor[i]) <= maxima[i])
    requires Occur(keys, Flatten(actions) + sponsor)
    requires |compute| == |estimated| && (forall i :: 0 <= i < |compute| ==> compute[i] <= estimated[i])
    requires EstimatedBandwidth(tx.actions, authBandwidth) < TWO_TO_THE_64
    requires var estimate := UnitsOf(EstimatedBandwidth(tx.actions, authBandwidth), TotalsOf(r, estimated, Flatten(sizes) + maxima));
             estimate.Some? && Fee(prices, estimate.value).Some?
    ensures |Encode(SerializeTxCodec(), tx)| < TWO_TO_THE_64 && AllValid(keys)
    ensures var units := UnitsOf(|Encode(SerializeTxCodec(), tx)|, TotalsOf(r, compute, ChunksOf(keys)));
            var estimate := UnitsOf(EstimatedBandwidth(tx.actions, authBandwidth), TotalsOf(r, estimated, Flatten(sizes) + maxima));
            units.Some? && Fee(prices, units.value).Some?
            && Fee(prices, units.value).value <= Fee(prices, estimate.value).value
  {
    BandwidthCovered(tx, authBandwidth);
    EstimateDominates(r, keys, actions, sponsor, sizes, maxima, compute, estimated);
    var size := |Encode(SerializeTxCodec(), tx)|;
    var charged, total := TotalsOf(r, compute, ChunksOf(keys)), TotalsOf(r, estimated, Flatten(sizes) + maxima);
    UnitsAreOrdered(size, EstimatedBandwidth(tx.actions, authBandwidth), charged, total);
    MaxFeeCovers(prices, UnitsOf(size, charged).value, UnitsOf(EstimatedBandwidth(tx.actions, authBandwidth), total).value);
  }

  lemma UnitsAreOrdered(size: U64, bandwidth: U64, charged: Totals, total: Totals)
    requires size <= bandwidth && InRange(charged) && InRange(total)
    requires charged.compute <= total.compute && charged.reading <= total.reading
    requires charged.allocating <= total.allocating && charged.writing <= total.writing
    ensures forall i :: 0 <= i < FEE_DIMENSIONS ==>
              UnitsOf(size, charged).value[i] <= UnitsOf(bandwidth, total).value[i]
  {
  }
}
