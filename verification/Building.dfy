/** Building a block and processing one: two loops over transactions that must agree. */
module Building {
  import opened Bytes
  import opened Fees
  import opened ResultMessages
  import opened TxExecution
  import opened Schedules

  // ---- What both share -----------------------------------------------------------------------

  datatype Rules = Rules(minBlockGap: int, minEmptyBlockGap: int, maxUnits: Dimensions, targetUnits: Dimensions)

  /** Where the chain keeps its own entries in the store and how it reads and writes them; `next` gives
      the fee manager of a block at some time from the fee entry of its parent. */
  datatype Metadata = Metadata(
    heightKey: Key, timestampKey: Key, feeKey: Key,
    putHeight: nat -> Value, putTime: int -> Value, putFees: Manager -> Value,
    getHeight: Value -> Option<nat>, getTime: Value -> Option<int>,
    next: (Value, int) -> Manager)

  ghost predicate SoundMetadata(meta: Metadata) {
    && meta.heightKey != meta.timestampKey && meta.heightKey != meta.feeKey && meta.timestampKey != meta.feeKey
    && (forall h: nat :: meta.getHeight(meta.putHeight(h)) == Some(h))
    && (forall t :: meta.getTime(meta.putTime(t)) == Some(t))
    && (forall v, t :: meta.next(v, t).consumed == NoUnits)
  }

  datatype Block = Block(parent: Id, timestamp: int, height: nat, txs: seq<Tx>, stateRoot: Id)

  /** The outcome of executing a block: what the OutputBlock holds. */
  datatype Output = Output(block: Block, results: seq<Result>, prices: Dimensions, consumed: Dimensions, store: Store)

  /** An executed parent: its entries are in its store. */
  datatype Parent = Parent(id: Id, height: nat, timestamp: int, store: Store, root: Id)

  ghost predicate ParentOk(meta: Metadata, parent: Parent) {
    && meta.heightKey in parent.store && parent.store[meta.heightKey] == meta.putHeight(parent.height)
    && meta.timestampKey in parent.store && parent.store[meta.timestampKey] == meta.putTime(parent.timestamp)
    && meta.feeKey in parent.store
  }

  function WriteHeader(meta: Metadata, s: Store, height: nat, timestamp: int, fees: Manager): Store {
    s[meta.heightKey := meta.putHeight(height)]
     [meta.timestampKey := meta.putTime(timestamp)]
     [meta.feeKey := meta.putFees(fees)]
  }

  function Items(txs: seq<Tx>): (items: seq<Item>)
    ensures |items| == |txs| && forall i :: 0 <= i < |txs| ==> items[i] == Item(i, txs[i])
  {
    seq(|txs|, i requires 0 <= i < |txs| => Item(i, txs[i]))
  }

  function ResultMap(results: seq<Result>): map<nat, Result> {
    map i: nat | i < |results| :: results[i]
  }

  /** Consuming the units of the transactions one after the other. */
  function ConsumeAll(m: Manager, txs: seq<Tx>, limit: Dimensions): Option<Manager> {
    if txs == [] then Some(m)
    else
      match ConsumeAll(m, txs[..|txs| - 1], limit)
      case None => None
      case Some(before) =>
        if txs[|txs| - 1].units.None? then None else Consume(before, txs[|txs| - 1].units.value, limit)
  }

  lemma ConsumeAllSnoc(m: Manager, txs: seq<Tx>, tx: Tx, limit: Dimensions)
    ensures ConsumeAll(m, txs + [tx], limit)
         == (match ConsumeAll(m, txs, limit)
             case None => None
             case Some(before) => if tx.units.None? then None else Consume(before, tx.units.value, limit))
  {
    assert (txs + [tx])[..|txs|] == txs;
  }

  /** When all the units are consumed, so are those of every prefix. */
  lemma {:induction false} ConsumeAllPrefix(m: Manager, txs: seq<Tx>, k: nat, limit: Dimensions)
    requires k <= |txs| && ConsumeAll(m, txs, limit).Some?
    ensures ConsumeAll(m, txs[..k], limit).Some?
    ensures k < |txs| ==> txs[k].units.Some?
    decreases |txs|
  {
    if k == |txs| {
      assert txs[..k] == txs;
    } else if k == |txs| - 1 {
    } else {
      assert txs[..|txs| - 1][..k] == txs[..k];
      ConsumeAllPrefix(m, txs[..|txs| - 1], k, limit);
    }
  }

  /** The units a block consumes never exceed the maximum in any dimension, at unchanged prices. */
  lemma {:induction false} ConsumedWithinLimit(m: Manager, txs: seq<Tx>, limit: Dimensions)
    requires m.consumed == NoUnits && ConsumeAll(m, txs, limit).Some?
    ensures ConsumeAll(m, txs, limit).value.prices == m.prices
    ensures forall i :: 0 <= i < FEE_DIMENSIONS ==> ConsumeAll(m, txs, limit).value.consumed[i] <= limit[i]
  {
    if txs != [] {
      ConsumedWithinLimit(m, txs[..|txs| - 1], limit);
    }
  }

  /** Running one more item at the end. */
  lemma {:induction false} RunSnoc(items: seq<Item>, x: Item, prices: Dimensions, s: Store)
    requires forall i :: 0 <= i < |items| ==> items[i].index != x.index
    ensures RunAll(items + [x], prices, s)
         == (match RunAll(items, prices, s)
             case None => None
             case Some((results, end)) =>
               match Attempt(x.tx, prices, end)
               case Ran(result, next) => Some((results[x.index := result], next))
               case _ => None)
  {
    if items == [] {
      assert items + [x] == [x] + [];
      RunCons(x, [], prices, s);
    } else {
      var a, rest := items[0], items[1..];
      assert items == [a] + rest;
      assert items + [x] == [a] + (rest + [x]);
      RunCons(a, rest, prices, s);
      RunCons(a, rest + [x], prices, s);
      if Attempt(a.tx, prices, s).Ran? {
        var next := Attempt(a.tx, prices, s).store;
        RunSnoc(rest, x, prices, next);
        var outcome := Attempt(a.tx, prices, s);
        if RunAll(rest + [x], prices, next).Some? {
          var (results, end) := RunAll(rest, prices, next).value;
          SnocOrder(a, x, results, outcome.result, Attempt(x.tx, prices, end).result);
        }
      }
    }
  }

  lemma SnocOrder(a: Item, x: Item, results: map<nat, Result>, ra: Result, rx: Result)
    requires a.index != x.index
    ensures results[x.index := rx][a.index := ra] == results[a.index := ra][x.index := rx]
  {
  }

  // ---- Processing ----------------------------------------------------------------------------

  /** createBlockContext: the block's height and time fit the parent's entries; its fee manager. */
  function BlockContext(meta: Metadata, rules: Rules, s: Store, b: Block): Option<Manager> {
    if meta.heightKey !in s || meta.getHeight(s[meta.heightKey]).None? then None
    else if b.height != meta.getHeight(s[meta.heightKey]).value + 1 then None
    else if meta.timestampKey !in s || meta.getTime(s[meta.timestampKey]).None? then None
    else
      var parentTime := meta.getTime(s[meta.timestampKey]).value;
      if b.timestamp < parentTime + rules.minBlockGap then None
      else if b.txs == [] && b.timestamp < parentTime + rules.minEmptyBlockGap then None
      else if meta.feeKey !in s then None
      else Some(meta.next(s[meta.feeKey], b.timestamp))
  }

  /** Executing the transactions of a block: the reference, from front to back. */
  function ExecuteTxs(txs: seq<Tx>, fees: Manager, limit: Dimensions, s: Store): Option<(map<nat, Result>, Store, Manager)> {
    if !AllKeyed(txs) then None
    else
      match ConsumeAll(fees, txs, limit)
      case None => None
      case Some(consumed) =>
        match RunAll(Items(txs), fees.prices, s)
        case None => None
        case Some((results, end)) => Some((results, end, consumed))
  }

  /** The output of a block on its parent's store, as a map of results by position; None is an error.
      `root` is the root of the parent's store. */
  function Process(meta: Metadata, rules: Rules, s: Store, root: Id, b: Block): Option<(map<nat, Result>, Manager, Store)> {
    match BlockContext(meta, rules, s, b)
    case None => None
    case Some(fees) =>
      match ExecuteTxs(b.txs, fees, rules.maxUnits, s)
      case None => None
      case Some((results, end, consumed)) =>
        if b.stateRoot != root then None
        else Some((results, consumed, WriteHeader(meta, end, b.height, b.timestamp, consumed)))
  }

  lemma {:induction false} RunAllFailsEarly(items: seq<Item>, k: nat, prices: Dimensions, s: Store)
    requires k <= |items| && RunAll(items, prices, s).Some?
    ensures RunAll(items[..k], prices, s).Some?
    decreases |items|
  {
    if k > 0 {
      assert items == [items[0]] + items[1..];
      RunCons(items[0], items[1..], prices, s);
      assert items[..k] == [items[0]] + items[1..][..k - 1];
      RunCons(items[0], items[1..][..k - 1], prices, s);
      RunAllFailsEarly(items[1..], k - 1, prices, Attempt(items[0].tx, prices, s).store);
    }
  }

  /** The executor on the block's tasks, in the order in which they run. */
  method RunTasks(order: seq<Item>, prices: Dimensions, s: Store) returns (r: Option<(map<nat, Result>, Store)>)
    requires forall i, j :: 0 <= i < j < |order| ==> order[i].index != order[j].index
    ensures r == RunAll(order, prices, s)
  {
    var results: map<nat, Result>, ts := map[], s;
    var k := 0;
    while k < |order|
      invariant k <= |order|
      invariant RunAll(order[..k], prices, s) == Some((results, ts))
    {
      var tx := order[k].tx;
      assert order[..k + 1] == order[..k] + [order[k]];
      RunSnoc(order[..k], order[k], prices, s);
      if RunAll(order, prices, s).Some? {
        RunAllFailsEarly(order, k + 1, prices, s);
      }
      if tx.keys.None? {
        return None;
      }
      var view := View(ts, tx.keys.value);
      if !PreExecute(tx, prices, view) {
        return None;
      }
      var done := ExecuteTx(tx, prices, view);
      if done.None? {
        return None;
      }
      results := results[order[k].index := done.value.0];
      ts := CommitView(ts, tx.keys.value, done.value.1);
      k := k + 1;
    }
    assert order[..k] == order;
    r := Some((results, ts));
  }

  lemma ConsumeNothing(m: Manager, limit: Dimensions)
    ensures ConsumeAll(m, [], limit) == Some(m)
  {
  }

  lemma ConsumeStep(fees: Manager, txs: seq<Tx>, i: nat, limit: Dimensions, manager: Manager)
    requires i < |txs| && ConsumeAll(fees, txs[..i], limit) == Some(manager)
    ensures var next := if txs[i].units.None? then None else Consume(manager, txs[i].units.value, limit);
            ConsumeAll(fees, txs[..i + 1], limit) == next && (next == None ==> ConsumeAll(fees, txs, limit) == None)
  {
    assert txs[..i + 1] == txs[..i] + [txs[i]];
    ConsumeAllSnoc(fees, txs[..i], txs[i], limit);
    if ConsumeAll(fees, txs, limit).Some? {
      ConsumeAllPrefix(fees, txs, i + 1, limit);
    }
  }

  predicate AllKeyed(txs: seq<Tx>) {
    forall i :: 0 <= i < |txs| ==> txs[i].keys.Some?
  }

  /** The first part of executeTxs: keys are computed and units consumed in block order. */
  method ConsumeUnits(txs: seq<Tx>, fees: Manager, limit: Dimensions) returns (r: Option<Manager>)
    ensures r == if AllKeyed(txs) then ConsumeAll(fees, txs, limit) else None
  {
    hide ConsumeAll;
    var manager := fees;
    var i := 0;
    assert txs[..0] == [];
    ConsumeNothing(fees, limit);
    while i < |txs|
      invariant i <= |txs|
      invariant forall k :: 0 <= k < i ==> txs[k].keys.Some?
      invariant ConsumeAll(fees, txs[..i], limit) == Some(manager)
    {
      ConsumeStep(fees, txs, i, limit, manager);
      if txs[i].keys.None? || txs[i].units.None? {
        return None;
      }
      var consumed := Consume(manager, txs[i].units.value, limit);
      if consumed.None? {
        return None;
      }
      manager := consumed.value;
      i := i + 1;
    }
    assert txs[..i] == txs;
    r := Some(manager);
  }

  /** executeTxs: the tasks run in `order`, any schedule that keeps conflicting transactions in block
      order. */
  method ExecuteBlockTxs(txs: seq<Tx>, fees: Manager, limit: Dimensions, s: Store, order: seq<Item>)
    returns (r: Option<(map<nat, Result>, Store, Manager)>)
    requires AllScoped(Items(txs)) && Schedule(Items(txs), order)
    ensures r == ExecuteTxs(txs, fees, limit, s)
  {
    ScheduleIsDistinct(Items(txs), order);
    ScheduleIsSequential(Items(txs), order, fees.prices, s);
    var consumed := ConsumeUnits(txs, fees, limit);
    if consumed.None? {
      return None;
    }
    var ran := RunTasks(order, fees.prices, s);
    if ran.None? {
      return None;
    }
    r := Some((ran.value.0, ran.value.1, consumed.value));
  }

  lemma ScheduleIsDistinct(items: seq<Item>, order: seq<Item>)
    requires Ascending(items) && Schedule(items, order)
    ensures forall i, j :: 0 <= i < j < |order| ==> order[i].index != order[j].index
  {
    forall i, j | 0 <= i < j < |order| ensures order[i].index != order[j].index {
      if order[i].index == order[j].index {
        TwiceInOrder(items, order, i, j);
      }
    }
  }

  lemma TwiceInOrder(items: seq<Item>, order: seq<Item>, i: nat, j: nat)
    requires Ascending(items) && multiset(items) == multiset(order)
    requires i < j < |order|
    ensures order[i].index != order[j].index
  {
    assert order[i] in multiset(order) && order[j] in multiset(order);
    assert order[i] in items && order[j] in items;
    var p :| 0 <= p < |items| && items[p] == order[i];
    var q :| 0 <= q < |items| && items[q] == order[j];
    if p == q {
      assert order == order[..j] + [order[j]] + order[j + 1..];
      assert order[i] in order[..j];
      assert multiset(order)[order[i]] >= 2;
      OnceInAscending(items, p);
    }
  }

  lemma {:induction false} OnceInAscending(items: seq<Item>, p: nat)
    requires Ascending(items) && p < |items|
    ensures multiset(items)[items[p]] == 1
  {
    assert items == items[..p] + [items[p]] + items[p + 1..];
    assert items[p] !in items[..p] && items[p] !in items[p + 1..];
  }

  /** How far ahead of the clock a block's timestamp may be, in milliseconds. */
  const FUTURE_BOUND := 1000

  /** What the processor checks beside the block's effects: its clock, whether the replay window finds a
      repeat, whether it looks there at all, and whether all signatures are valid. */
  datatype Checks = Checks(now: int, replays: bool, normalOp: bool, signaturesValid: bool) {
    predicate Pass(b: Block) {
      b.timestamp <= now + FUTURE_BOUND && !(normalOp && replays) && signaturesValid
    }
  }

  /** `r` is the output of the block, or None when it has none. */
  ghost predicate IsOutput(meta: Metadata, rules: Rules, s: Store, root: Id, b: Block, r: Option<Output>) {
    && r.Some? == Process(meta, rules, s, root, b).Some?
    && (r.Some? ==>
          var (results, consumed, end) := Process(meta, rules, s, root, b).value;
          && r.value.block == b && |r.value.results| == |b.txs| && ResultMap(r.value.results) == results
          && r.value.prices == consumed.prices && r.value.consumed == consumed.consumed && r.value.store == end)
  }

  /** A block has one output. So when it comes from the builder, whose output is one, the processor returns
      that very output, whatever schedule its executor takes. */
  lemma OutputIsUnique(meta: Metadata, rules: Rules, s: Store, root: Id, b: Block, q: Option<Output>, r: Option<Output>)
    requires IsOutput(meta, rules, s, root, b, q) && IsOutput(meta, rules, s, root, b, r)
    ensures q == r
  {
    if q.Some? {
      ResultsAreDetermined(q.value.results, r.value.results);
    }
  }

  // ---- What the answer means -----------------------------------------------------------------

  /** The units of the transactions in one dimension. */
  function UnitsIn(txs: seq<Tx>, d: nat): nat
    requires d < 5
  {
    if txs == [] then 0
    else
      UnitsIn(txs[..|txs| - 1], d)
      + (if txs[|txs| - 1].units.Some? then txs[|txs| - 1].units.value[d] as nat else 0)
  }

  /** Units are consumed exactly when all of them are known and together stay within the limit in every
      dimension, and then what is consumed is their sum. */
  lemma {:induction false} ConsumeAllAnswers(m: Manager, txs: seq<Tx>, limit: Dimensions)
    requires m.consumed == NoUnits
    ensures ConsumeAll(m, txs, limit).Some?
            <==> && (forall i :: 0 <= i < |txs| ==> txs[i].units.Some?)
                 && (forall d :: 0 <= d < 5 ==> UnitsIn(txs, d) <= limit[d] as nat)
    ensures ConsumeAll(m, txs, limit).Some? ==>
              && ConsumeAll(m, txs, limit).value.prices == m.prices
              && forall d :: 0 <= d < 5 ==> ConsumeAll(m, txs, limit).value.consumed[d] as nat == UnitsIn(txs, d)
  {
    if txs != [] {
      var init, last := txs[..|txs| - 1], txs[|txs| - 1];
      ConsumeAllAnswers(m, init, limit);
      assert forall i :: 0 <= i < |init| ==> init[i] == txs[i];
      assert forall d :: 0 <= d < 5 ==> UnitsIn(init, d) <= UnitsIn(txs, d);
    }
  }

  /** The stores and the results of running the first n transactions from front to back, each on the store
      that the one before it leaves. */
  ghost predicate Runs(txs: seq<Tx>, prices: Dimensions, s: Store, stores: seq<Store>, results: seq<Result>, n: nat) {
    && n <= |txs| && |stores| == n + 1 && |results| == n && stores[0] == s
    && forall i :: 0 <= i < n ==> Attempt(txs[i], prices, stores[i]) == Ran(results[i], stores[i + 1])
  }

  /** Running a block succeeds exactly when every transaction runs on the store before it. */
  lemma {:induction false} RunAnswers(txs: seq<Tx>, prices: Dimensions, s: Store)
    returns (stores: seq<Store>, results: seq<Result>, n: nat)
    ensures Runs(txs, prices, s, stores, results, n)
    ensures n < |txs| ==> !Attempt(txs[n], prices, stores[n]).Ran?
    ensures RunAll(Items(txs), prices, s)
         == if n == |txs| then Some((ResultMap(results), stores[n])) else None
  {
    hide Attempt;
    stores, results, n := [s], [], 0;
    if txs == [] {
      assert Items(txs) == [];
    } else {
      var init, x := txs[..|txs| - 1], Item(|txs| - 1, txs[|txs| - 1]);
      stores, results, n := RunAnswers(init, prices, s);
      assert Items(txs) == Items(init) + [x];
      RunSnoc(Items(init), x, prices, s);
      if n == |init| && Attempt(x.tx, prices, stores[n]).Ran? {
        var ran := Attempt(x.tx, prices, stores[n]);
        assert ResultMap(results + [ran.result]) == ResultMap(results)[n := ran.result];
        stores, results, n := stores + [ran.store], results + [ran.result], n + 1;
      }
    }
  }

  lemma {:induction false} RunsAgree(
    txs: seq<Tx>, prices: Dimensions, s: Store, stores: seq<Store>, results: seq<Result>, n: nat,
    others: seq<Store>, theirs: seq<Result>, m: nat, k: nat)
    requires Runs(txs, prices, s, stores, results, n) && Runs(txs, prices, s, others, theirs, m) && k <= n && k <= m
    ensures stores[k] == others[k] && results[..k] == theirs[..k]
  {
    if k > 0 {
      RunsAgree(txs, prices, s, stores, results, n, others, theirs, m, k - 1);
      assert results[..k] == results[..k - 1] + [results[k - 1]] && theirs[..k] == theirs[..k - 1] + [theirs[k - 1]];
    }
  }

  /** The parent's entries allow a block of this height and time. */
  predicate Follows(meta: Metadata, rules: Rules, s: Store, b: Block) {
    && meta.heightKey in s && meta.getHeight(s[meta.heightKey]).Some?
    && b.height == meta.getHeight(s[meta.heightKey]).value + 1
    && meta.timestampKey in s && meta.getTime(s[meta.timestampKey]).Some?
    && b.timestamp >= meta.getTime(s[meta.timestampKey]).value + rules.minBlockGap
    && (b.txs == [] ==> b.timestamp >= meta.getTime(s[meta.timestampKey]).value + rules.minEmptyBlockGap)
    && meta.feeKey in s
  }

  /** The transactions are keyed, their units are known and fit together, and each runs. */
  ghost predicate AllRun(txs: seq<Tx>, prices: Dimensions, limit: Dimensions, s: Store) {
    && (forall i :: 0 <= i < |txs| ==> txs[i].keys.Some? && txs[i].units.Some?)
    && (forall d :: 0 <= d < 5 ==> UnitsIn(txs, d) <= limit[d] as nat)
    && exists stores, results :: Runs(txs, prices, s, stores, results, |txs|)
  }

  lemma RunsAt(txs: seq<Tx>, prices: Dimensions, s: Store, stores: seq<Store>, results: seq<Result>, n: nat, i: nat)
    requires Runs(txs, prices, s, stores, results, n) && i <= n
    ensures i < n ==> Attempt(txs[i], prices, stores[i]).Ran?
  {
    if i < n {
      assert Attempt(txs[i], prices, stores[i]) == Ran(results[i], stores[i + 1]);
    }
  }

  ghost predicate RunsTo(txs: seq<Tx>, prices: Dimensions, s: Store, list: seq<Result>, end: Store) {
    exists stores :: Runs(txs, prices, s, stores, list, |txs|) && stores[|txs|] == end
  }

  lemma RunAllAnswers(txs: seq<Tx>, prices: Dimensions, s: Store)
    ensures RunAll(Items(txs), prices, s).Some? <==> exists stores, results :: Runs(txs, prices, s, stores, results, |txs|)
    ensures RunAll(Items(txs), prices, s).Some? ==>
              var (results, end) := RunAll(Items(txs), prices, s).value;
              forall list :: |list| == |txs| && ResultMap(list) == results ==> RunsTo(txs, prices, s, list, end)
  {
    hide Attempt;
    var stores, results, n := RunAnswers(txs, prices, s);
    if others, theirs :| Runs(txs, prices, s, others, theirs, |txs|) {
      RunsAgree(txs, prices, s, stores, results, n, others, theirs, |txs|, n);
      RunsAt(txs, prices, s, others, theirs, |txs|, n);
    }
    if n == |txs| {
      forall list | |list| == n && ResultMap(list) == ResultMap(results)
        ensures RunsTo(txs, prices, s, list, stores[n])
      {
        ResultsAreDetermined(list, results);
      }
    }
  }

  lemma ExecuteTxsAnswers(txs: seq<Tx>, fees: Manager, limit: Dimensions, s: Store)
    requires fees.consumed == NoUnits
    ensures ExecuteTxs(txs, fees, limit, s).Some? <==> AllRun(txs, fees.prices, limit, s)
    ensures ExecuteTxs(txs, fees, limit, s).Some? ==>
              var (results, end, consumed) := ExecuteTxs(txs, fees, limit, s).value;
              && consumed.prices == fees.prices
              && (forall d :: 0 <= d < 5 ==> consumed.consumed[d] as nat == UnitsIn(txs, d))
              && forall list :: |list| == |txs| && ResultMap(list) == results ==> RunsTo(txs, fees.prices, s, list, end)
  {
    hide Runs, RunAll, ConsumeAll, RunsTo, UnitsIn;
    ConsumeAllAnswers(fees, txs, limit);
    RunAllAnswers(txs, fees.prices, s);
  }

  /** The chain's own entries after a block, and every other entry as the transactions left it. */
  ghost predicate HeaderWritten(meta: Metadata, b: Block, fees: Manager, before: Store, after: Store) {
    && meta.heightKey in after && after[meta.heightKey] == meta.putHeight(b.height)
    && meta.timestampKey in after && after[meta.timestampKey] == meta.putTime(b.timestamp)
    && meta.feeKey in after && after[meta.feeKey] == meta.putFees(fees)
    && forall k :: k !in {meta.heightKey, meta.timestampKey, meta.feeKey} ==>
         (k in after <==> k in before) && (k in after ==> after[k] == before[k])
  }

  /** A block has an output exactly when it follows its parent, carries the parent's root, and its
      transactions all run; and the output is what running them gives. */
  lemma OutputAnswers(meta: Metadata, rules: Rules, s: Store, root: Id, b: Block, r: Option<Output>)
    requires SoundMetadata(meta) && IsOutput(meta, rules, s, root, b, r)
    ensures r.Some?
            <==> && Follows(meta, rules, s, b)
                 && AllRun(b.txs, meta.next(s[meta.feeKey], b.timestamp).prices, rules.maxUnits, s)
                 && b.stateRoot == root
    ensures r.Some? ==>
              && r.value.block == b && r.value.prices == meta.next(s[meta.feeKey], b.timestamp).prices
              && (forall d :: 0 <= d < 5 ==> r.value.consumed[d] as nat == UnitsIn(b.txs, d))
              && exists stores ::
                   && Runs(b.txs, r.value.prices, s, stores, r.value.results, |b.txs|)
                   && HeaderWritten(meta, b, Manager(r.value.prices, r.value.consumed), stores[|b.txs|], r.value.store)
  {
    if BlockContext(meta, rules, s, b).Some? {
      var fees := meta.next(s[meta.feeKey], b.timestamp);
      ExecuteTxsAnswers(b.txs, fees, rules.maxUnits, s);
      if r.Some? {
        var (results, end, consumed) := ExecuteTxs(b.txs, fees, rules.maxUnits, s).value;
        assert RunsTo(b.txs, fees.prices, s, r.value.results, end);
        var stores :| Runs(b.txs, fees.prices, s, stores, r.value.results, |b.txs|) && stores[|b.txs|] == end;
        assert consumed == Manager(r.value.prices, r.value.consumed);
        assert HeaderWritten(meta, b, consumed, end, r.value.store);
      }
    }
  }

  /** Processor.Execute. The tasks run in `order`, any schedule that keeps conflicting transactions in block
      order. */
  method ProcessBlock(meta: Metadata, rules: Rules, s: Store, root: Id, b: Block, checks: Checks, order: seq<Item>)
    returns (r: Option<Output>)
    requires AllScoped(Items(b.txs)) && Schedule(Items(b.txs), order)
    ensures checks.Pass(b) ==> IsOutput(meta, rules, s, root, b, r)
    ensures !checks.Pass(b) ==> r.None?
    ensures checks.Pass(b) <==>
              b.timestamp <= checks.now + 1000 && (checks.normalOp ==> !checks.replays) && checks.signaturesValid
    ensures SoundMetadata(meta) && checks.Pass(b) ==>
              (r.Some? <==> && Follows(meta, rules, s, b)
                            && AllRun(b.txs, meta.next(s[meta.feeKey], b.timestamp).prices, rules.maxUnits, s)
                            && b.stateRoot == root)
  {
    forall r | SoundMetadata(meta) && IsOutput(meta, rules, s, root, b, r)
      ensures r.Some? <==> && Follows(meta, rules, s, b)
                           && AllRun(b.txs, meta.next(s[meta.feeKey], b.timestamp).prices, rules.maxUnits, s)
                           && b.stateRoot == root
    {
      OutputAnswers(meta, rules, s, root, b, r);
    }
    if b.timestamp > checks.now + FUTURE_BOUND {
      return None;
    }
    var fees := BlockContext(meta, rules, s, b);
    if fees.None? {
      return None;
    }
    if checks.normalOp && checks.replays {
      return None;
    }
    var ran := ExecuteBlockTxs(b.txs, fees.value, rules.maxUnits, s, order);
    if ran.None? || b.stateRoot != root {
      return None;
    }
    if !checks.signaturesValid {
      return None;
    }
    var (results, ts, consumed) := ran.value;
    ProcessListed(b.txs, fees.value, rules.maxUnits, s);
    r := Some(Output(b, Listed(results, |b.txs|), consumed.prices, consumed.consumed,
                     WriteHeader(meta, ts, b.height, b.timestamp, consumed)));
  }

  lemma ProcessListed(txs: seq<Tx>, fees: Manager, limit: Dimensions, s: Store)
    ensures ExecuteTxs(txs, fees, limit, s).Some? ==>
              forall i :: i in ExecuteTxs(txs, fees, limit, s).value.0 <==> 0 <= i < |txs|
  {
    RunAllCovers(Items(txs), fees.prices, s);
    if ExecuteTxs(txs, fees, limit, s).Some? {
      forall i ensures i in ExecuteTxs(txs, fees, limit, s).value.0 <==> 0 <= i < |txs| {
        if 0 <= i < |txs| {
          assert Items(txs)[i].index == i;
        }
      }
    }
  }

  /** Results by position as a list. */
  function Listed(results: map<nat, Result>, n: nat): (list: seq<Result>)
    requires forall i :: i in results <==> 0 <= i < n
    ensures |list| == n && ResultMap(list) == results
  {
    seq(n, i requires 0 <= i < n => results[i])
  }

  /** A run has a result for each item and for nothing else. */
  lemma {:induction false} RunAllCovers(items: seq<Item>, prices: Dimensions, s: Store)
    ensures RunAll(items, prices, s).Some? ==>
              forall n :: n in RunAll(items, prices, s).value.0 <==> exists i :: 0 <= i < |items| && items[i].index == n
    decreases |items|
  {
    if items != [] && RunAll(items, prices, s).Some? {
      var next := Attempt(items[0].tx, prices, s).store;
      RunAllCovers(items[1..], prices, next);
      forall n ensures n in RunAll(items, prices, s).value.0 <==> exists i :: 0 <= i < |items| && items[i].index == n {
        if n in RunAll(items[1..], prices, next).value.0 {
          var i :| 0 <= i < |items[1..]| && items[1..][i].index == n;
          assert items[i + 1].index == n;
        }
        if i :| 0 <= i < |items| && items[i].index == n {
          if i > 0 {
            assert items[1..][i - 1].index == n;
          }
        }
      }
    }
  }

  /** Two outputs of the same length with the same results by position list the same results: so a block
      and its builder's output are all there is to what the processor returns. */
  lemma ResultsAreDetermined(a: seq<Result>, b: seq<Result>)
    requires |a| == |b| && ResultMap(a) == ResultMap(b)
    ensures a == b
  {
    forall i | 0 <= i < |a| ensures a[i] == b[i] {
      assert ResultMap(a)[i] == ResultMap(b)[i];
    }
  }
}
