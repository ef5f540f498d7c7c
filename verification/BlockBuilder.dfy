/** The block builder: it streams transactions from the mempool in batches, packs the ones that run and
    fit, and keeps a journal of what became of every one of them. */
module BlockBuilder {
  import opened Bytes
  import opened Fees
  import opened ResultMessages
  import opened TxExecution
  import opened Schedules
  import opened Building
  import opened BuildJournal

  /** The transactions with these results are what processing them from front to back, from `start` and
      `base`, makes of them. */
  ghost predicate Packed(
    start: Manager, base: Store, limit: Dimensions, txs: seq<Tx>, results: seq<Result>, fees: Manager, ts: Store)
  {
    && AllKeyed(txs)
    && |results| == |txs|
    && ConsumeAll(start, txs, limit) == Some(fees)
    && RunAll(Items(txs), start.prices, base) == Some((ResultMap(results), ts))
    && fees.prices == start.prices
  }

  lemma PackedRun(start: Manager, base: Store, txs: seq<Tx>, results: seq<Result>, ts: Store, tx: Tx, result: Result, next: Store)
    requires |results| == |txs| && RunAll(Items(txs), start.prices, base) == Some((ResultMap(results), ts))
    requires Attempt(tx, start.prices, ts) == Ran(result, next)
    ensures RunAll(Items(txs + [tx]), start.prices, base) == Some((ResultMap(results + [result]), next))
  {
    hide Attempt, Conflict;
    var n := |txs|;
    RunSnoc(Items(txs), Item(n, tx), start.prices, base);
    assert Items(txs + [tx]) == Items(txs) + [Item(n, tx)];
    assert ResultMap(results + [result]) == ResultMap(results)[n := result];
  }

  /** Appending a transaction that runs and fits. */
  lemma PackedGrows(
    start: Manager, base: Store, limit: Dimensions, txs: seq<Tx>, results: seq<Result>, fees: Manager, ts: Store,
    tx: Tx, result: Result, next: Store, after: Manager)
    requires Packed(start, base, limit, txs, results, fees, ts)
    requires tx.keys.Some? && tx.units == Some(result.units)
    requires Attempt(tx, fees.prices, ts) == Ran(result, next)
    requires Consume(fees, result.units, limit) == Some(after)
    ensures Packed(start, base, limit, txs + [tx], results + [result], after, next)
  {
    ConsumeAllSnoc(start, txs, tx, limit);
    PackedRun(start, base, txs, results, ts, tx, result, next);
  }

  /** The block and the transactions to hand back are those of the journal, every entry of which is right. */
  ghost predicate Told(setting: Setting, journal: seq<Entry>, blockTransactions: seq<Tx>, restorable: seq<Tx>) {
    && blockTransactions == Select(journal, InBlock)
    && restorable == Select(journal, HandedBack)
    && AllJustified(setting, journal)
  }

  lemma ToldMore(setting: Setting, journal: seq<Entry>, blockTransactions: seq<Tx>, restorable: seq<Tx>, e: Entry)
    requires Told(setting, journal, blockTransactions, restorable) && Justified(setting, journal, e)
    ensures Told(setting, journal + [e],
                 if KindOf(e.fate) == InBlock then blockTransactions + [e.tx] else blockTransactions,
                 if KindOf(e.fate) == HandedBack then restorable + [e.tx] else restorable)
  {
    Snoc(setting, journal, e);
  }

  /** What the block so far comes to is what the journal reaches. */
  lemma PackedIsReached(setting: Setting, journal: seq<Entry>, restorable: seq<Tx>, txs: seq<Tx>, results: seq<Result>, fees: Manager, ts: Store)
    requires Packed(setting.start, setting.base, setting.rules.maxUnits, txs, results, fees, ts)
    requires Told(setting, journal, txs, restorable)
    ensures Reached(setting, journal) == Some((fees, ts))
  {
  }

  /** Positions that all differ and are below some bound. */
  ghost predicate Open(positions: seq<nat>, below: nat) {
    && (forall i :: 0 <= i < |positions| ==> positions[i] < below)
    && (forall i, j :: 0 <= i < j < |positions| ==> positions[i] != positions[j])
  }

  function ToSet(positions: seq<nat>): set<nat> {
    set p | p in positions
  }

  lemma OpenMore(positions: seq<nat>, p: nat)
    requires Open(positions, p)
    ensures p !in ToSet(positions)
    ensures Open(positions + [p], p + 1) && ToSet(positions + [p]) == ToSet(positions) + {p}
  {
  }

  lemma OpenLess(positions: seq<nat>, below: nat, i: nat)
    requires Open(positions, below) && i < |positions|
    ensures Open(Without(positions, i), below)
    ensures ToSet(Without(positions, i)) == ToSet(positions) - {positions[i]}
    ensures forall p :: p in Without(positions, i) ==> p in positions
  {
    var rest := Without(positions, i);
    assert forall k :: 0 <= k < |rest| ==> rest[k] == if k < i then positions[k] else positions[k + 1];
    forall p | p in positions && p != positions[i] ensures p in rest {
      var k :| 0 <= k < |positions| && positions[k] == p;
      assert rest[if k < i then k else k - 1] == p;
    }
  }

  /** Submitted positions of a batch: the filter lets them through, and their transactions are scoped. */
  ghost predicate Runnable(setting: Setting, b: nat, positions: seq<nat>) {
    && b < |setting.batches|
    && Open(positions, |setting.batches[b].txs|)
    && forall p :: p in positions ==>
         Filter(setting.batches[b], p, setting.targetSize) == None && Scoped(setting.batches[b].txs[p])
  }

  lemma RunnableLess(setting: Setting, b: nat, positions: seq<nat>, i: nat)
    requires Runnable(setting, b, positions) && i < |positions|
    ensures Runnable(setting, b, Without(positions, i))
    ensures ToSet(Without(positions, i)) == ToSet(positions) - {positions[i]}
  {
    OpenLess(positions, |setting.batches[b].txs|, i);
  }

  /** A journal that files the first `n` places of batch `b` except the open ones; all faults are there. */
  ghost predicate Filed(setting: Setting, journal: seq<Entry>, b: nat, n: nat, open: set<nat>) {
    Unique(journal) && Files(Slots(journal), setting.batches, b, n, open) && FaultsAt(journal, b)
  }

  lemma FiledNext(setting: Setting, journal: seq<Entry>, b: nat, n: nat, open: set<nat>, e: Entry)
    requires Filed(setting, journal, b, n, open) && n !in open
    ensures e.slot == Slot(b, n) ==> Filed(setting, journal + [e], b, n + 1, open)
    ensures Filed(setting, journal, b, n + 1, open + {n})
  {
    FilesNext(Slots(journal), setting.batches, b, n, open);
    SlotsSnoc(journal, e);
  }

  lemma FiledOpen(setting: Setting, journal: seq<Entry>, b: nat, n: nat, open: set<nat>, e: Entry, p: nat)
    requires Filed(setting, journal, b, n, open) && p in open && p < n && e.slot == Slot(b, p)
    ensures Filed(setting, journal + [e], b, n, open - {p})
  {
    FilesOpen(Slots(journal), setting.batches, b, n, open, p);
    SlotsSnoc(journal, e);
  }

  /** The next batch can be begun when the ones before had no fault. */
  lemma FiledBatch(setting: Setting, journal: seq<Entry>, b: nat)
    requires b < |setting.batches| && Filed(setting, journal, b, |setting.batches[b].txs|, {})
    ensures Files(Slots(journal), setting.batches, b + 1, 0, {})
    ensures FirstFault(journal).None? ==> Filed(setting, journal, b + 1, 0, {})
  {
    FilesBatch(Slots(journal), setting.batches, b);
    FaultIsThere(journal);
  }

  /** Of the first `n` positions of a batch, the submitted ones are those that the filter lets through. */
  ghost predicate Sifted(batch: Batch, targetSize: nat, submitted: seq<nat>, n: nat) {
    && n <= |batch.txs| && Open(submitted, n)
    && forall p: nat :: p < n ==> (p in submitted <==> Filter(batch, p, targetSize) == None)
  }

  lemma SiftedNext(batch: Batch, targetSize: nat, submitted: seq<nat>, n: nat)
    requires Sifted(batch, targetSize, submitted, n) && n < |batch.txs|
    ensures Sifted(batch, targetSize, if Filter(batch, n, targetSize).None? then submitted + [n] else submitted, n + 1)
  {
  }

  lemma RestIsSifted(batch: Batch, targetSize: nat, submitted: seq<nat>, n: nat)
    requires Sifted(batch, targetSize, submitted, n)
    requires forall p :: n <= p < |batch.txs| ==> Filter(batch, p, targetSize).Some?
    ensures Sifted(batch, targetSize, submitted, |batch.txs|)
  {
  }

  lemma SubmittedIsRunnable(setting: Setting, b: nat, submitted: seq<nat>)
    requires b < |setting.batches| && (forall tx :: tx in setting.batches[b].txs ==> Scoped(tx))
    requires Sifted(setting.batches[b], setting.targetSize, submitted, |setting.batches[b].txs|)
    ensures Runnable(setting, b, submitted)
  {
  }

  /** A block being assembled: the variables that the tasks of a build share. */
  class Assembly {
    const rules: Rules
    const start: Manager
    const base: Store
    ghost const setting: Setting
    var blockTransactions: seq<Tx>
    var results: seq<Result>
    var restorable: seq<Tx>
    var feeManager: Manager
    var ts: Store
    var stop: bool
    ghost var journal: seq<Entry>

    constructor (rules: Rules, start: Manager, base: Store, ghost batches: seq<Batch>, ghost targetSize: nat)
      ensures this.rules == rules && this.start == start && this.base == base
      ensures setting == Setting(start, base, rules, batches, targetSize)
      ensures Consistent() && journal == [] && !stop
    {
      this.rules, this.start, this.base := rules, start, base;
      setting := Setting(start, base, rules, batches, targetSize);
      blockTransactions, results, restorable, journal := [], [], [], [];
      feeManager, ts, stop := start, base, false;
      new;
      assert Items(blockTransactions) == [];
    }

    /** The block so far is what processing it from front to back would make of it, and the journal is right
        about it. */
    ghost predicate Consistent()
      reads this
    {
      && setting.start == start && setting.base == base && setting.rules == rules
      && Packed(start, base, rules.maxUnits, blockTransactions, results, feeManager, ts)
      && Told(setting, journal, blockTransactions, restorable)
    }

    /** Drops a transaction: nothing but the journal shows it. */
    ghost method Forget(e: Entry)
      requires Consistent() && Justified(setting, journal, e) && KindOf(e.fate) == Dropped
      modifies this`journal
      ensures Consistent() && journal == old(journal) + [e]
    {
      ToldMore(setting, journal, blockTransactions, restorable, e);
      journal := journal + [e];
    }

    method Restore(tx: Tx, ghost e: Entry)
      requires Consistent() && Justified(setting, journal, e) && KindOf(e.fate) == HandedBack && e.tx == tx
      modifies this`restorable, this`journal
      ensures Consistent() && journal == old(journal) + [e]
      ensures restorable == old(restorable) + [tx]
    {
      ToldMore(setting, journal, blockTransactions, restorable, e);
      restorable := restorable + [tx];
      journal := journal + [e];
    }

    /** Adds a transaction that ran and fits. */
    method Include(tx: Tx, result: Result, next: Store, fees: Manager, ghost e: Entry)
      requires Consistent() && tx.keys.Some? && tx.units == Some(result.units)
      requires Attempt(tx, feeManager.prices, ts) == Ran(result, next)
      requires Consume(feeManager, result.units, rules.maxUnits) == Some(fees)
      requires Justified(setting, journal, e) && e.fate == Included && e.tx == tx
      modifies this`blockTransactions, this`results, this`ts, this`feeManager, this`journal
      ensures Consistent() && journal == old(journal) + [e]
      ensures blockTransactions == old(blockTransactions) + [tx] && results == old(results) + [result]
    {
      hide AllKeyed, ConsumeAll, RunAll, AllJustified, Justified, Select;
      PackedGrows(start, base, rules.maxUnits, blockTransactions, results, feeManager, ts, tx, result, next, fees);
      ToldMore(setting, journal, blockTransactions, restorable, e);
      blockTransactions := blockTransactions + [tx];
      results := results + [result];
      ts, feeManager := next, fees;
      journal := journal + [e];
    }

    /** A submitted place of the stream. */
    ghost predicate Submitted(slot: Slot, tx: Tx) {
      && slot.batch < |setting.batches| && slot.position < |setting.batches[slot.batch].txs|
      && tx == setting.batches[slot.batch].txs[slot.position]
      && Filter(setting.batches[slot.batch], slot.position, setting.targetSize) == None
    }

    /** The fate of the task of a submitted transaction is right when it is that of running it now. */
    lemma RunIsJustified(slot: Slot, tx: Tx)
      requires Consistent() && Submitted(slot, tx)
      ensures var fate := RunFate(rules, feeManager, ts, tx, slot.position !in setting.batches[slot.batch].unreadable);
              Justified(setting, journal, Entry(slot, tx, fate))
    {
      PackedIsReached(setting, journal, restorable, blockTransactions, results, feeManager, ts);
    }

    /** The task of one transaction: it is dropped when PreExecute fails or its keys cannot be read,
        handed back when it fails unexpectedly or does not fit, and otherwise included. */
    method RunTask(tx: Tx, readable: bool, ghost slot: Slot) returns (err: Option<Fault>, ghost fate: Fate)
      requires Consistent() && tx.keys.Some? && Scoped(tx) && Submitted(slot, tx)
      requires readable == (slot.position !in setting.batches[slot.batch].unreadable)
      modifies this
      ensures Consistent() && journal == old(journal) + [Entry(slot, tx, fate)]
      ensures fate == RunFate(rules, old(feeManager), old(ts), tx, readable) && err == FaultOf(fate)
      ensures stop == (old(stop) || fate == Full)
    {
      hide Reached, AllJustified, Justified, Select, FirstFault, ConsumeAll, RunAll, AllKeyed, PreExecute;
      fate := RunFate(rules, feeManager, ts, tx, readable);
      RunIsJustified(slot, tx);
      ghost var e := Entry(slot, tx, fate);
      if !readable {
        Forget(e);
        return Some(Unexpected), fate;
      }
      var view := View(ts, tx.keys.value);
      if !PreExecute(tx, feeManager.prices, view) {
        Forget(e);
        return None, fate;
      }
      var r := ExecuteTx(tx, feeManager.prices, view);
      if r.None? {
        Restore(tx, e);
        return Some(Unexpected), fate;
      }
      ExecuteCharges(tx, feeManager.prices, view);
      var (result, after) := r.value;
      var fees := Consume(feeManager, result.units, rules.maxUnits);
      if fees.None? {
        Restore(tx, e);
        var dimension := FirstOver(feeManager.consumed, result.units, rules.maxUnits, 0).value;
        if feeManager.consumed[dimension] >= rules.targetUnits[dimension] {
          stop := true;
          return Some(BlockFull), fate;
        }
        return None, fate;
      }
      Include(tx, result, CommitView(ts, tx.keys.value, after), fees.value, e);
      err := None;
    }

    /** One transaction of a batch that is within the size target: dropped, or submitted. */
    method Sift(ghost b: nat, batch: Batch, repeats: set<nat>, li: nat, submitted: seq<nat>) returns (next: seq<nat>)
      requires Consistent() && b < |setting.batches| && batch == setting.batches[b] && li < |batch.txs|
      requires batch.repeats == Some(repeats) && SizeOf(batch.txs[..li + 1]) <= setting.targetSize
      requires Filed(setting, journal, b, li, ToSet(submitted)) && Open(submitted, li)
      modifies this`journal
      ensures Consistent() && Filed(setting, journal, b, li + 1, ToSet(next)) && Open(next, li + 1)
      ensures FirstFault(journal) == old(FirstFault(journal))
      ensures match Filter(batch, li, setting.targetSize)
              case None => next == submitted + [li] && journal == old(journal)
              case Some(fate) => next == submitted && journal == old(journal) + [Entry(Slot(b, li), batch.txs[li], fate)]
    {
      hide Packed, Told, Filed, AllJustified, Select, FirstFault, ToSet;
      next := submitted;
      OpenMore(submitted, li);
      ghost var fate := if li in repeats then Repeated else BadKeys;
      ghost var e := Entry(Slot(b, li), batch.txs[li], fate);
      FiledNext(setting, journal, b, li, ToSet(submitted), e);
      Snoc(setting, journal, e);
      if li in repeats || batch.txs[li].keys.None? {
        Forget(e);
      } else {
        next := submitted + [li];
      }
    }

    /** Hands back one transaction that is not submitted. */
    method RestoreNext(ghost b: nat, batch: Batch, li: nat, ghost fate: Fate, ghost open: set<nat>)
      requires Consistent() && b < |setting.batches| && batch == setting.batches[b] && li < |batch.txs| && li !in open
      requires (fate == Unchecked || fate == OverSize) && Filter(batch, li, setting.targetSize) == Some(fate)
      requires Filed(setting, journal, b, li, open)
      modifies this`restorable, this`journal
      ensures Consistent() && Filed(setting, journal, b, li + 1, open)
      ensures FirstFault(journal) == old(FirstFault(journal))
      ensures restorable == old(restorable) + [batch.txs[li]]
    {
      ghost var e := Entry(Slot(b, li), batch.txs[li], fate);
      FiledNext(setting, journal, b, li, open, e);
      Snoc(setting, journal, e);
      Restore(batch.txs[li], e);
    }

    /** Hands back the rest of a batch from some position on. */
    method RestoreRest(ghost b: nat, batch: Batch, from: nat, ghost fate: Fate, ghost open: set<nat>)
      requires Consistent() && b < |setting.batches| && batch == setting.batches[b] && from <= |batch.txs|
      requires fate == Unchecked || fate == OverSize
      requires forall p :: from <= p < |batch.txs| ==> Filter(batch, p, setting.targetSize) == Some(fate)
      requires Filed(setting, journal, b, from, open) && forall p :: p in open ==> p < from
      modifies this`restorable, this`journal
      ensures Consistent() && Filed(setting, journal, b, |batch.txs|, open)
      ensures FirstFault(journal) == old(FirstFault(journal))
      ensures restorable == old(restorable) + batch.txs[from..]
    {
      hide Packed, Told, Filed, Justified, Select, FirstFault;
      var li := from;
      assert batch.txs[from..li] == [];
      while li < |batch.txs|
        invariant from <= li <= |batch.txs|
        invariant Consistent() && Filed(setting, journal, b, li, open)
        invariant FirstFault(journal) == old(FirstFault(journal))
        invariant restorable == old(restorable) + batch.txs[from..li]
      {
        assert batch.txs[from..li + 1] == batch.txs[from..li] + [batch.txs[li]];
        RestoreNext(b, batch, li, fate, open);
        li := li + 1;
      }
      assert batch.txs[from..li] == batch.txs[from..];
    }

    /** Goes through a batch in order: what exceeds the size target is handed back, repeats and
        transactions with bad keys are dropped, and the rest is submitted to the executor. */
    method Submit(ghost b: nat, batch: Batch, repeats: set<nat>, targetSize: nat) returns (submitted: seq<nat>)
      requires Consistent() && b < |setting.batches| && batch == setting.batches[b]
      requires batch.repeats == Some(repeats) && targetSize == setting.targetSize
      requires (forall tx :: tx in batch.txs ==> Scoped(tx)) && Filed(setting, journal, b, 0, {})
      modifies this`restorable, this`journal
      ensures Consistent() && Filed(setting, journal, b, |batch.txs|, ToSet(submitted))
      ensures Runnable(setting, b, submitted)
      ensures Sifted(batch, targetSize, submitted, |batch.txs|)
      ensures FirstFault(journal) == old(FirstFault(journal))
    {
      hide Packed, Told, Filed, Files, Slots, Justified, AllJustified, Select, FirstFault;
      submitted := [];
      var li, total := 0, 0;
      assert batch.txs[..0] == [] && ToSet(submitted) == {};
      while li < |batch.txs|
        invariant li <= |batch.txs| && total == SizeOf(batch.txs[..li]) <= targetSize
        invariant Consistent() && Filed(setting, journal, b, li, ToSet(submitted)) && Open(submitted, li)
        invariant Sifted(batch, targetSize, submitted, li)
        invariant FirstFault(journal) == old(FirstFault(journal))
      {
        assert batch.txs[..li + 1][..li] == batch.txs[..li];
        total := total + batch.txs[li].size;
        if total > targetSize {
          RestIsOverSize(batch, li, targetSize);
          RestIsSifted(batch, targetSize, submitted, li);
          SubmittedIsRunnable(setting, b, submitted);
          RestoreRest(b, batch, li, OverSize, ToSet(submitted));
          return;
        }
        SiftedNext(batch, targetSize, submitted, li);
        submitted := Sift(b, batch, repeats, li, submitted);
        li := li + 1;
      }
      SubmittedIsRunnable(setting, b, submitted);
    }

    /** One of the pending tasks finishes. */
    method RunOne(ghost b: nat, batch: Batch, pending: seq<nat>, i: nat) returns (fault: Option<Fault>, rest: seq<nat>)
      requires Consistent() && Runnable(setting, b, pending) && batch == setting.batches[b] && i < |pending|
      requires Filed(setting, journal, b, |batch.txs|, ToSet(pending))
      modifies this
      ensures Consistent() && Runnable(setting, b, rest) && |rest| < |pending|
      ensures Filed(setting, journal, b, |batch.txs|, ToSet(rest))
      ensures stop == (old(stop) || fault == Some(BlockFull))
      ensures FirstFault(journal) == if old(FirstFault(journal)).Some? then old(FirstFault(journal)) else fault
    {
      hide Packed, Told, Filed, RunFate, Justified, Select, FirstFault;
      var p := pending[i];
      ghost var before, fate := journal, Skipped;
      assert p in pending;
      fault, fate := RunTask(batch.txs[p], p !in batch.unreadable, Slot(b, p));
      ghost var e := Entry(Slot(b, p), batch.txs[p], fate);
      FiledOpen(setting, before, b, |batch.txs|, ToSet(pending), e, p);
      Snoc(setting, before, e);
      RunnableLess(setting, b, pending, i);
      rest := Without(pending, i);
    }

    /** The executor on the submitted tasks. It finishes them in the given order as far as that goes and
        then in submission order, except that once a task has failed it skips the ones it has not
        started: they stay pending. The first error counts. */
    method RunSubmitted(ghost b: nat, batch: Batch, submitted: seq<nat>) returns (err: Option<Fault>, pending: seq<nat>)
      requires Consistent() && Runnable(setting, b, submitted) && batch == setting.batches[b]
      requires Filed(setting, journal, b, |batch.txs|, ToSet(submitted)) && FirstFault(journal).None? && !stop
      modifies this
      ensures Consistent() && Runnable(setting, b, pending)
      ensures Filed(setting, journal, b, |batch.txs|, ToSet(pending))
      ensures err == FirstFault(journal) && (err.None? ==> pending == [] && !stop)
    {
      err, pending := None, submitted;
      var next := 0;
      while pending != [] && (err.None? || next < |batch.finish|)
        invariant next <= |batch.finish|
        invariant Consistent() && Runnable(setting, b, pending)
        invariant Filed(setting, journal, b, |batch.txs|, ToSet(pending))
        invariant err == FirstFault(journal) && (err.None? ==> !stop)
        decreases |batch.finish| - next + |pending|
      {
        var i := 0;
        if next < |batch.finish| {
          next := next + 1;
          i := Position(pending, batch.finish[next - 1]);
        }
        if i < |pending| {
          var fault;
          fault, pending := RunOne(b, batch, pending, i);
          err := if err.None? then fault else err;
        }
      }
    }

    /** Where a value is in a list, or the length of the list when it is not. */
    method Position(xs: seq<nat>, x: nat) returns (p: nat)
      ensures p <= |xs| && (p < |xs| ==> xs[p] == x) && x !in xs[..p]
    {
      p := 0;
      while p < |xs| && xs[p] != x
        invariant p <= |xs| && x !in xs[..p]
      {
        assert xs[..p + 1] == xs[..p] + [xs[p]];
        p := p + 1;
      }
    }

    /** Hands back the tasks that a fault left pending. */
    method RestorePending(ghost b: nat, batch: Batch, pending: seq<nat>)
      requires Consistent() && Runnable(setting, b, pending) && batch == setting.batches[b]
      requires Filed(setting, journal, b, |batch.txs|, ToSet(pending))
      requires pending != [] ==> FirstFault(journal).Some?
      modifies this`restorable, this`journal
      ensures Consistent() && Filed(setting, journal, b, |batch.txs|, {})
      ensures FirstFault(journal) == old(FirstFault(journal))
    {
      var rest := pending;
      while rest != []
        invariant Consistent() && Runnable(setting, b, rest)
        invariant Filed(setting, journal, b, |batch.txs|, ToSet(rest))
        invariant FirstFault(journal) == old(FirstFault(journal))
        invariant rest != [] ==> FirstFault(journal).Some?
        decreases |rest|
      {
        var p := rest[0];
        assert p in rest;
        ghost var e := Entry(Slot(b, p), batch.txs[p], Skipped);
        FiledOpen(setting, journal, b, |batch.txs|, ToSet(rest), e, p);
        Snoc(setting, journal, e);
        RunnableLess(setting, b, rest, 0);
        Restore(batch.txs[p], e);
        rest := Without(rest, 0);
      }
      assert ToSet(rest) == {};
    }

    /** One turn of the streaming loop. `more` is false when streaming ends with this batch. */
    method StreamBatch(ghost b: nat, batch: Batch, targetSize: nat) returns (more: bool, err: Option<Fault>)
      requires Consistent() && b < |setting.batches| && batch == setting.batches[b] && targetSize == setting.targetSize
      requires !stop && FirstFault(journal).None? && (forall tx :: tx in batch.txs ==> Scoped(tx))
      requires Filed(setting, journal, b, 0, {})
      modifies this
      ensures Consistent() && Filed(setting, journal, b, |batch.txs|, {})
      ensures err == FirstFault(journal) && (err.Some? ==> batch.repeats.Some?)
      ensures more == (err.None? && batch.repeats.Some?) && (more ==> !stop)
    {
      if batch.repeats.None? {
        RestoreRest(b, batch, 0, Unchecked, {});
        return false, None;
      }
      var submitted := Submit(b, batch, batch.repeats.value, targetSize);
      var pending;
      err, pending := RunSubmitted(b, batch, submitted);
      RestorePending(b, batch, pending);
      more := err.None?;
    }

    /** The streaming loop: batches until the mempool has none left, the block is full, or an error. */
    method StreamAll(batches: seq<Batch>, targetSize: nat) returns (taken: nat, err: Option<Fault>)
      requires Consistent() && !stop && journal == []
      requires batches == setting.batches && targetSize == setting.targetSize
      requires forall b, tx :: b in batches && tx in b.txs ==> Scoped(tx)
      modifies this
      ensures Consistent() && Streams(batches, taken, journal) && err == FirstFault(journal)
      ensures Unique(journal) && Files(Slots(journal), batches, taken, 0, {})
    {
      taken, err := 0, None;
      var more := true;
      while taken < |batches| && more && batches[taken].txs != []
        invariant Consistent() && Streaming(batches, taken, journal) && err == FirstFault(journal)
        invariant Unique(journal) && Files(Slots(journal), batches, taken, 0, {})
        invariant more ==> !stop && err.None? && Filed(setting, journal, taken, 0, {})
        invariant !more ==> taken > 0 && (batches[taken - 1].repeats.None? || err.Some?)
        invariant more && taken > 0 ==> batches[taken - 1].repeats.Some?
      {
        var batch := batches[taken];
        assert forall tx :: tx in batch.txs ==> Scoped(tx);
        ghost var before := journal;
        more, err := StreamBatch(taken, batch, targetSize);
        StreamingMore(batches, taken, before, journal);
        FiledBatch(setting, journal, taken);
        taken := taken + 1;
      }
    }
  }

  /** Once the size target is exceeded it stays exceeded. */
  lemma {:induction false} SizeGrows(txs: seq<Tx>, m: nat, n: nat)
    requires m <= n <= |txs|
    ensures SizeOf(txs[..m]) <= SizeOf(txs[..n])
    decreases n
  {
    if m < n {
      SizeGrows(txs, m, n - 1);
      assert txs[..n][..n - 1] == txs[..n - 1];
    }
  }

  lemma RestIsOverSize(batch: Batch, from: nat, targetSize: nat)
    requires from < |batch.txs| && batch.repeats.Some? && SizeOf(batch.txs[..from + 1]) > targetSize
    ensures forall p :: from <= p < |batch.txs| ==> Filter(batch, p, targetSize) == Some(OverSize)
  {
    forall p | from <= p < |batch.txs| ensures Filter(batch, p, targetSize) == Some(OverSize) {
      SizeGrows(batch.txs, from + 1, p + 1);
    }
  }

  // ---- The build -----------------------------------------------------------------------------

  /** How a build ends: with a block and the transactions handed back; without one, handing back what is
      restorable but not what was packed; or, on an unexpected error, handing back both. */
  datatype Ending =
    | Built(output: Output, returned: seq<Tx>)
    | NoBlock(returned: seq<Tx>, packed: seq<Tx>)
    | Aborted(returned: seq<Tx>)

  /** One of the chain's own entries is gone from the store, and the builder may not create it. */
  predicate HeaderLost(meta: Metadata, s: Store) {
    meta.heightKey !in s || meta.timestampKey !in s || meta.feeKey !in s
  }

  predicate TooEarly(rules: Rules, parent: Parent, now: int) {
    now < parent.timestamp + rules.minBlockGap
  }

  function SettingOf(meta: Metadata, rules: Rules, parent: Parent, now: int, targetSize: nat, batches: seq<Batch>): Setting
    requires meta.feeKey in parent.store
  {
    Setting(meta.next(parent.store[meta.feeKey], now), parent.store, rules, batches, targetSize)
  }

  /** Why a build that did not end in an unexpected error has no block, given what it packed and reached:
      the block would be empty too early, one of the chain's own entries is gone, or the root, the view or
      the bytes of the block cannot be computed. */
  predicate NotSealed(meta: Metadata, rules: Rules, parent: Parent, now: int, sealable: bool, packed: seq<Tx>, end: Store) {
    || (packed == [] && now < parent.timestamp + rules.minEmptyBlockGap)
    || HeaderLost(meta, end)
    || !sealable
  }

  /** The journal of a whole build: every streamed transaction is filed exactly once, with a fate that is
      right; nothing is streamed when it is too early. */
  ghost predicate IsJournal(setting: Setting, early: bool, taken: nat, journal: seq<Entry>) {
    && AllJustified(setting, journal) && Reached(setting, journal).Some?
    && Unique(journal) && Files(Slots(journal), setting.batches, taken, 0, {})
    && (if early then taken == 0 && journal == [] else Streams(setting.batches, taken, journal))
  }

  ghost predicate EndsWithoutBlock(
    meta: Metadata, rules: Rules, parent: Parent, now: int, sealable: bool, setting: Setting, journal: seq<Entry>)
    requires Reached(setting, journal).Some?
  {
    || TooEarly(rules, parent, now)
    || (FirstFault(journal) != Some(Unexpected)
        && NotSealed(meta, rules, parent, now, sealable, Select(journal, InBlock), Reached(setting, journal).value.1))
  }

  /** BuildBlock at time `now`. `batches` is what the mempool streams until it is empty or time is up;
      `sealable` says whether the root, the view and the bytes of the block can be computed in the end.
      `taken` is how many batches were streamed, and the journal says what became of their transactions. */
  method BuildBlock(
    meta: Metadata, rules: Rules, parent: Parent, now: int, targetSize: nat, batches: seq<Batch>, sealable: bool)
    returns (r: Ending, taken: nat, ghost journal: seq<Entry>)
    requires SoundMetadata(meta) && ParentOk(meta, parent)
    requires forall b, tx :: b in batches && tx in b.txs ==> Scoped(tx)
    ensures IsJournal(SettingOf(meta, rules, parent, now, targetSize, batches), TooEarly(rules, parent, now), taken, journal)
    ensures r.Aborted? <==> FirstFault(journal) == Some(Unexpected)
    ensures r.Aborted? <==> exists i: nat :: FirstFaulty(journal, i) && journal[i].fate != Full
    ensures now >= parent.timestamp + rules.minBlockGap ==> StoppedFor(batches, taken, journal)
    ensures r.NoBlock? <==>
              EndsWithoutBlock(meta, rules, parent, now, sealable, SettingOf(meta, rules, parent, now, targetSize, batches), journal)
    ensures match r
            case Built(output, returned) =>
              output.block.txs == Select(journal, InBlock) && multiset(returned) == multiset(Select(journal, HandedBack))
            case NoBlock(returned, packed) =>
              packed == Select(journal, InBlock) && multiset(returned) == multiset(Select(journal, HandedBack))
            case Aborted(returned) =>
              multiset(returned) == multiset(Select(journal, InBlock)) + multiset(Select(journal, HandedBack))
    ensures multiset(Streamed(batches[..taken]))
         == multiset(Select(journal, Dropped)) + multiset(r.returned)
            + (match r case Built(output, _) => multiset(output.block.txs)
                       case NoBlock(_, packed) => multiset(packed)
                       case Aborted(_) => multiset{})
    ensures r.Built? ==>
              && r.output.block.parent == parent.id && r.output.block.height == parent.height + 1
              && r.output.block.timestamp == now
              && IsOutput(meta, rules, parent.store, parent.root, r.output.block, Some(r.output))
              && (forall i :: 0 <= i < FEE_DIMENSIONS ==> r.output.consumed[i] <= rules.maxUnits[i])
  {
    hide Packed, AllJustified, Select, Streamed, ConsumeAll, RunAll, Files, Slots, Unique, NotSealed, IsOutput, SizeOf;
    hide FirstFault, FirstFaulty, Faulty, StoppedFor;
    ghost var setting := SettingOf(meta, rules, parent, now, targetSize, batches);
    journal := [];
    if TooEarly(rules, parent, now) {
      NothingStreamed(setting);
      FirstFaultMeans([]);
      return NoBlock([], []), 0, [];
    }
    var start := meta.next(parent.store[meta.feeKey], now);
    var a := new Assembly(rules, start, parent.store, batches, targetSize);
    NothingStreamed(setting);
    var err;
    taken, err := a.StreamAll(batches, targetSize);
    journal := a.journal;
    PackedIsReached(setting, journal, a.restorable, a.blockTransactions, a.results, a.feeManager, a.ts);
    StreamIsAccounted(setting, taken, journal);
    FirstFaultMeans(journal);
    StopsOnlyFor(batches, taken, journal);
    if err == Some(Unexpected) {
      r := Aborted(a.blockTransactions + a.restorable);
      return;
    }
    r := Finish(meta, rules, parent, now, a, sealable);
  }

  lemma NothingStreamed(setting: Setting)
    ensures AllJustified(setting, []) && Reached(setting, []) == Some((setting.start, setting.base))
    ensures Unique([]) && Slots([]) == {} && Files({}, setting.batches, 0, 0, {})
    ensures Streamed(setting.batches[..0]) == [] && FirstFault([]) == None
    ensures forall kind :: Select([], kind) == []
  {
    assert Items([]) == [];
  }

  /** The end of BuildBlock: the checks on an empty block, the chain's own entries, and the block. */
  method Finish(meta: Metadata, rules: Rules, parent: Parent, now: int, a: Assembly, sealable: bool) returns (r: Ending)
    requires SoundMetadata(meta) && ParentOk(meta, parent) && a.Consistent()
    requires a.rules == rules && a.base == parent.store && a.start == meta.next(parent.store[meta.feeKey], now)
    requires !TooEarly(rules, parent, now)
    ensures r.returned == a.restorable && !r.Aborted?
    ensures r.NoBlock? <==> NotSealed(meta, rules, parent, now, sealable, a.blockTransactions, a.ts)
    ensures r.NoBlock? ==> r.packed == a.blockTransactions
    ensures r.Built? ==>
              && r.output.block.parent == parent.id && r.output.block.height == parent.height + 1
              && r.output.block.timestamp == now && r.output.block.txs == a.blockTransactions
              && IsOutput(meta, rules, parent.store, parent.root, r.output.block, Some(r.output))
              && (forall i :: 0 <= i < FEE_DIMENSIONS ==> r.output.consumed[i] <= rules.maxUnits[i])
  {
    if a.blockTransactions == [] && now < parent.timestamp + rules.minEmptyBlockGap {
      return NoBlock(a.restorable, a.blockTransactions);
    }
    if HeaderLost(meta, a.ts) || !sealable {
      return NoBlock(a.restorable, a.blockTransactions);
    }
    var store := WriteHeader(meta, a.ts, parent.height + 1, now, a.feeManager);
    var b := Block(parent.id, now, parent.height + 1, a.blockTransactions, parent.root);
    ConsumedWithinLimit(a.start, a.blockTransactions, rules.maxUnits);
    r := Built(Output(b, a.results, a.feeManager.prices, a.feeManager.consumed, store), a.restorable);
  }

  lemma IncludedAreScoped(setting: Setting, early: bool, taken: nat, journal: seq<Entry>)
    requires IsJournal(setting, early, taken, journal)
    requires forall b, tx :: b in setting.batches && tx in b.txs ==> Scoped(tx)
    ensures AllScoped(Items(Select(journal, InBlock)))
  {
    SelectedIsStreamed(setting, journal, InBlock);
    forall x | x in Items(Select(journal, InBlock)) ensures Scoped(x.tx) {
      assert x.tx in Select(journal, InBlock);
    }
  }

  /** Building and then processing on the same parent, in any schedule: when the block passes the checks that
      the processor makes besides, the processor's output is the builder's. */
  method BuildAndProcess(
    meta: Metadata, rules: Rules, parent: Parent, now: int, targetSize: nat, batches: seq<Batch>, sealable: bool,
    checks: Checks, schedule: seq<Item> -> seq<Item>)
    returns (built: Ending, processed: Option<Output>)
    requires SoundMetadata(meta) && ParentOk(meta, parent)
    requires forall b, tx :: b in batches && tx in b.txs ==> Scoped(tx)
    requires forall items :: Ascending(items) ==> Schedule(items, schedule(items))
    ensures built.Built? && checks.Pass(built.output.block) ==> processed == Some(built.output)
  {
    hide IsJournal, EndsWithoutBlock, IsOutput, Schedule, Select, FirstFault, Streamed, AllScoped, Scoped, SoundMetadata;
    var taken;
    ghost var journal;
    built, taken, journal := BuildBlock(meta, rules, parent, now, targetSize, batches, sealable);
    if !built.Built? {
      return built, None;
    }
    var b := built.output.block;
    IncludedAreScoped(SettingOf(meta, rules, parent, now, targetSize, batches), TooEarly(rules, parent, now), taken, journal);
    processed := ProcessBlock(meta, rules, parent.store, parent.root, b, checks, schedule(Items(b.txs)));
    if checks.Pass(b) {
      OutputIsUnique(meta, rules, parent.store, parent.root, b, Some(built.output), processed);
    }
  }
}
