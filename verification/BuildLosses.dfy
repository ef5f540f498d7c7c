/** When a build loses what it packed: a build that ends without a block hands back only what was not
    packed, so the packed transactions are then in no block and not in the mempool either. */
module BuildLosses {
  import opened Bytes
  import opened Fees
  import opened ResultMessages
  import opened TxExecution
  import opened Schedules
  import opened Building
  import opened BuildJournal
  import opened BlockBuilder

  /** A transaction does not declare a key for more than reading. */
  predicate Spares(tx: Tx, key: Key) {
    key in ScopeOf(tx) ==> ScopeOf(tx)[key] == Shared
  }

  predicate SparesHeader(meta: Metadata, tx: Tx) {
    Spares(tx, meta.heightKey) && Spares(tx, meta.timestampKey) && Spares(tx, meta.feeKey)
  }

  lemma AttemptKeepsKey(tx: Tx, prices: Dimensions, s: Store, key: Key)
    requires Scoped(tx) && Spares(tx, key) && Attempt(tx, prices, s).Ran?
    ensures key in Attempt(tx, prices, s).store <==> key in s
  {
    var view := View(s, ScopeOf(tx));
    ExecuteCharges(tx, prices, view);
    assert key in ScopeOf(tx) ==> (key in view <==> key in s);
  }

  /** Running transactions that spare a key neither removes nor adds it. */
  lemma {:induction false} RunKeepsKey(items: seq<Item>, prices: Dimensions, s: Store, key: Key)
    requires AllScoped(items) && RunAll(items, prices, s).Some?
    requires forall x :: x in items ==> Spares(x.tx, key)
    ensures key in RunAll(items, prices, s).value.1 <==> key in s
    decreases |items|
  {
    if items != [] {
      assert items[0] in items;
      AttemptKeepsKey(items[0].tx, prices, s, key);
      RunKeepsKey(items[1..], prices, Attempt(items[0].tx, prices, s).store, key);
    }
  }

  /** A caller's check: when no streamed transaction declares one of the chain's own keys for more than
      reading, none of the chain's own entries can be gone in the end. */
  lemma HeaderSurvives(meta: Metadata, parent: Parent, setting: Setting, journal: seq<Entry>)
    requires ParentOk(meta, parent) && setting.base == parent.store
    requires AllJustified(setting, journal) && Reached(setting, journal).Some?
    requires forall b, tx :: b in setting.batches && tx in b.txs ==> Scoped(tx) && SparesHeader(meta, tx)
    ensures !HeaderLost(meta, Reached(setting, journal).value.1)
  {
    var txs := Select(journal, InBlock);
    SelectedIsStreamed(setting, journal, InBlock);
    forall x | x in Items(txs) ensures Scoped(x.tx) && SparesHeader(meta, x.tx) {
      assert x.tx in txs;
    }
    RunKeepsKey(Items(txs), setting.start.prices, setting.base, meta.heightKey);
    RunKeepsKey(Items(txs), setting.start.prices, setting.base, meta.timestampKey);
    RunKeepsKey(Items(txs), setting.start.prices, setting.base, meta.feeKey);
  }

  /** When a build has no block: it is too early for one; or it met no unexpected error but packed nothing too
      early for an empty one, or one of the chain's own entries is gone, or the block cannot be sealed. */
  lemma NoBlockExactlyWhen(
    meta: Metadata, rules: Rules, parent: Parent, now: int, sealable: bool, setting: Setting, journal: seq<Entry>)
    requires Reached(setting, journal).Some?
    ensures EndsWithoutBlock(meta, rules, parent, now, sealable, setting, journal)
            <==> || now < parent.timestamp + rules.minBlockGap
                 || (&& (forall i: nat :: FirstFaulty(journal, i) ==> journal[i].fate == Full)
                     && var end := Reached(setting, journal).value.1;
                        || (Select(journal, InBlock) == [] && now < parent.timestamp + rules.minEmptyBlockGap)
                        || meta.heightKey !in end || meta.timestampKey !in end || meta.feeKey !in end
                        || !sealable)
  {
    FirstFaultMeans(journal);
  }

  /** A build without a block loses what it packed exactly when it packed something, met no unexpected error,
      and then found one of the chain's own entries gone, or could not compute the root, the view or the
      bytes of the block. */
  lemma LossIsExactly(
    meta: Metadata, rules: Rules, parent: Parent, now: int, sealable: bool, setting: Setting, journal: seq<Entry>)
    requires Reached(setting, journal).Some? && (TooEarly(rules, parent, now) ==> journal == [])
    ensures EndsWithoutBlock(meta, rules, parent, now, sealable, setting, journal) && Select(journal, InBlock) != []
            <==> Select(journal, InBlock) != [] && FirstFault(journal) != Some(Unexpected)
                 && (HeaderLost(meta, Reached(setting, journal).value.1) || !sealable)
  {
  }

  /** With the caller's check, nothing is lost by a build that can compute the root, the view and the bytes. */
  lemma NothingIsLost(meta: Metadata, rules: Rules, parent: Parent, now: int, setting: Setting, journal: seq<Entry>)
    requires ParentOk(meta, parent) && setting.base == parent.store
    requires AllJustified(setting, journal) && Reached(setting, journal).Some?
    requires TooEarly(rules, parent, now) ==> journal == []
    requires forall b, tx :: b in setting.batches && tx in b.txs ==> Scoped(tx) && SparesHeader(meta, tx)
    ensures EndsWithoutBlock(meta, rules, parent, now, true, setting, journal) ==> Select(journal, InBlock) == []
  {
    HeaderSurvives(meta, parent, setting, journal);
    LossIsExactly(meta, rules, parent, now, true, setting, journal);
  }

  // ---- A transaction that is lost ------------------------------------------------------------

  /** A free transaction whose one action deletes the entry of the chain's height. */
  function Eraser(meta: Metadata): Tx {
    Tx(EmptyId, 0, Some(map[meta.heightKey := Exclusive]), Some(NoUnits), true,
       (s: Store, fee: U64) => true, (s: Store, fee: U64) => Some(s),
       [(s: Store) => Done(s - {meta.heightKey}, [])])
  }

  lemma {:induction false} NoUnitsAreFree(prices: Dimensions, n: nat)
    requires n <= FEE_DIMENSIONS
    ensures Dot(prices, NoUnits, n) == 0
  {
    if n > 0 {
      NoUnitsAreFree(prices, n - 1);
    }
  }

  lemma OneAction(action: Store -> ActionResult, charged: Store, view: Store, units: Dimensions, fee: U64)
    requires action(view).Done?
    ensures RunActions([action], charged, view, [], units, fee)
         == (Result(true, [], [action(view).output], units, fee), action(view).store)
  {
    assert [action][1..] == [];
    assert [] + [action(view).output] == [action(view).output];
  }

  lemma EraserRuns(meta: Metadata, prices: Dimensions, s: Store)
    ensures Scoped(Eraser(meta)) && Attempt(Eraser(meta), prices, s).Ran?
    ensures Attempt(Eraser(meta), prices, s).result.units == NoUnits
    ensures meta.heightKey !in Attempt(Eraser(meta), prices, s).store
  {
    NoUnitsAreFree(prices, FEE_DIMENSIONS);
    var tx := Eraser(meta);
    var view := View(s, ScopeOf(tx));
    OneAction(tx.actions[0], view, view, NoUnits, 0);
    assert tx.actions == [tx.actions[0]];
    assert Execute(tx, prices, view).value == RunActions(tx.actions, view, view, [], NoUnits, 0);
    assert tx.actions[0](view) == Done(view - {meta.heightKey}, []);
  }

  /** A mempool that streams the eraser and nothing else. */
  function EraserStream(meta: Metadata): seq<Batch> {
    [Batch([Eraser(meta)], Some({}), [], {})]
  }

  lemma OnePlace(journal: seq<Entry>, batches: seq<Batch>)
    requires |batches| == 1 && |batches[0].txs| == 1
    requires Unique(journal) && Files(Slots(journal), batches, 1, 0, {})
    ensures |journal| == 1 && journal[0].slot == Slot(0, 0)
  {
    var first := Find(journal, Slot(0, 0));
    forall i | 0 <= i < |journal| ensures journal[i].slot == Slot(0, 0) {
      assert journal[i] in journal;
      assert Slot(journal[i].slot.batch, journal[i].slot.position) in Slots(journal);
    }
    if |journal| > 1 {
      SlotsDiffer(journal, 0, 1);
      assert false;
    }
  }

  /** The only journal of building on it includes the eraser. */
  lemma EraserIsIncluded(meta: Metadata, setting: Setting, journal: seq<Entry>)
    requires setting.batches == EraserStream(meta) && setting.start.consumed == NoUnits
    requires AllJustified(setting, journal) && Unique(journal) && Files(Slots(journal), setting.batches, 1, 0, {})
    ensures journal == [Entry(Slot(0, 0), Eraser(meta), Included)]
  {
    hide Unique, Files, Slots;
    OnePlace(journal, setting.batches);
    JustifiedAt(setting, journal, 0);
    assert journal[..0] == [];
    NothingStreamed(setting);
    EraserRuns(meta, setting.start.prices, setting.base);
    var batch := setting.batches[0];
    assert batch.txs[..1][..0] == [];
    assert SizeOf(batch.txs[..1]) == 0;
  }

  lemma EraserReaches(meta: Metadata, setting: Setting)
    requires Reached(setting, [Entry(Slot(0, 0), Eraser(meta), Included)]).Some?
    ensures var journal := [Entry(Slot(0, 0), Eraser(meta), Included)];
            Select(journal, InBlock) == [Eraser(meta)] && Select(journal, HandedBack) == []
            && FirstFault(journal) == None && HeaderLost(meta, Reached(setting, journal).value.1)
  {
    var before: seq<Entry> := [];
    var tx := Eraser(meta);
    assert before + [Entry(Slot(0, 0), tx, Included)] == [Entry(Slot(0, 0), tx, Included)];
    Snoc(setting, before, Entry(Slot(0, 0), tx, Included));
    EraserRuns(meta, setting.start.prices, setting.base);
    assert Items([tx]) == [Item(0, tx)] + [];
    RunCons(Item(0, tx), [], setting.start.prices, setting.base);
  }

  /** However a build on it goes, it ends without a block, having packed the eraser. */
  lemma EraserEnds(
    meta: Metadata, rules: Rules, parent: Parent, now: int, sealable: bool, setting: Setting, taken: nat, journal: seq<Entry>)
    requires setting.batches == EraserStream(meta) && setting.start.consumed == NoUnits
    requires IsJournal(setting, false, taken, journal)
    ensures Reached(setting, journal).Some? && EndsWithoutBlock(meta, rules, parent, now, sealable, setting, journal)
    ensures Select(journal, InBlock) == [Eraser(meta)] && Select(journal, HandedBack) == []
  {
    if taken == 0 {
      NothingFiled(setting.batches, journal);
    }
    EraserIsIncluded(meta, setting, journal);
    hide IsJournal, Reached, Select, FirstFault, AllJustified;
    EraserReaches(meta, setting);
  }

  lemma EmptyMultiset<T>(xs: seq<T>)
    requires multiset(xs) == multiset{}
    ensures xs == []
  {
    assert |multiset(xs)| == |xs|;
  }

  /** A build that has time for it packs the eraser, has no block, and hands nothing back. */
  method LoseEraser(meta: Metadata, rules: Rules, parent: Parent, now: int, targetSize: nat, sealable: bool) returns (r: Ending)
    requires SoundMetadata(meta) && ParentOk(meta, parent) && !TooEarly(rules, parent, now)
    ensures r == NoBlock([], [Eraser(meta)])
  {
    hide EndsWithoutBlock, Select, FirstFault, FirstFaulty, StoppedFor, IsOutput, Streamed, Eraser, Reached;
    var batches := EraserStream(meta);
    ghost var setting := SettingOf(meta, rules, parent, now, targetSize, batches);
    EraserRuns(meta, setting.start.prices, parent.store);
    var taken;
    ghost var journal;
    r, taken, journal := BuildBlock(meta, rules, parent, now, targetSize, batches, sealable);
    EraserEnds(meta, rules, parent, now, sealable, setting, taken, journal);
    assert multiset(Select(journal, HandedBack)) == multiset{};
    EmptyMultiset(r.returned);
  }
}
