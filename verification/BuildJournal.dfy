/** The journal of a build: what became of every streamed transaction, and why. */
module BuildJournal {
  import opened Bytes
  import opened Fees
  import opened ResultMessages
  import opened TxExecution
  import opened Schedules
  import opened Building

  /** One batch of the mempool's stream, and what the environment does with it: the positions that repeat
      an earlier transaction, or None when that cannot be told; the order in which the executor finishes
      tasks, as far as it matters; and the positions whose keys cannot be read from the parent. */
  datatype Batch = Batch(txs: seq<Tx>, repeats: Option<set<nat>>, finish: seq<nat>, unreadable: set<nat>)

  /** What becomes of a streamed transaction. It is in the block; or handed back, because its batch could
      not be checked for repeats, it exceeds the size target, the executor had stopped before it, it failed
      unexpectedly, or it does not fit, which may end the build; or dropped, as a repeat, for its keys, by
      PreExecute, or because its keys could not be read. */
  datatype Fate =
    | Included
    | Unchecked | OverSize | Skipped | Erred | TooBig | Full
    | Repeated | BadKeys | FailedPreExecute | NotFetched

  datatype Kind = InBlock | HandedBack | Dropped

  function KindOf(fate: Fate): Kind {
    match fate
    case Included => InBlock
    case Unchecked | OverSize | Skipped | Erred | TooBig | Full => HandedBack
    case Repeated | BadKeys | FailedPreExecute | NotFetched => Dropped
  }

  /** The error that ends an execution: the block is full, or something went wrong. */
  datatype Fault = BlockFull | Unexpected

  function FaultOf(fate: Fate): Option<Fault> {
    match fate
    case Erred | NotFetched => Some(Unexpected)
    case Full => Some(BlockFull)
    case _ => None
  }

  /** A place in the stream. */
  datatype Slot = Slot(batch: nat, position: nat)

  datatype Entry = Entry(slot: Slot, tx: Tx, fate: Fate)

  /** The transactions of one kind, in the order in which their fates were decided. */
  function Select(journal: seq<Entry>, kind: Kind): seq<Tx> {
    if journal == [] then []
    else
      var before, last := Select(journal[..|journal| - 1], kind), journal[|journal| - 1];
      if KindOf(last.fate) == kind then before + [last.tx] else before
  }

  /** The first fault, which decides how the build ends. */
  function FirstFault(journal: seq<Entry>): Option<Fault> {
    if journal == [] then None
    else
      var before := FirstFault(journal[..|journal| - 1]);
      if before.Some? then before else FaultOf(journal[|journal| - 1].fate)
  }

  /** What a build works on: the fee manager and the store it starts from, the rules, the stream and the
      size target. */
  datatype Setting = Setting(start: Manager, base: Store, rules: Rules, batches: seq<Batch>, targetSize: nat)

  /** The fee manager and the store after the transactions included so far. */
  function Reached(setting: Setting, journal: seq<Entry>): Option<(Manager, Store)> {
    var txs := Select(journal, InBlock);
    match (ConsumeAll(setting.start, txs, setting.rules.maxUnits), RunAll(Items(txs), setting.start.prices, setting.base))
    case (Some(fees), Some((_, ts))) => Some((fees, ts))
    case _ => None
  }

  function SizeOf(txs: seq<Tx>): nat {
    if txs == [] then 0 else SizeOf(txs[..|txs| - 1]) + txs[|txs| - 1].size
  }

  /** The fate of a transaction that is not submitted to the executor; None when it is. */
  function Filter(batch: Batch, position: nat, targetSize: nat): Option<Fate>
    requires position < |batch.txs|
  {
    if batch.repeats.None? then Some(Unchecked)
    else if SizeOf(batch.txs[..position + 1]) > targetSize then Some(OverSize)
    else if position in batch.repeats.value then Some(Repeated)
    else if batch.txs[position].keys.None? then Some(BadKeys)
    else None
  }

  /** The fate of a transaction that the executor runs, on what is reached by then. */
  function RunFate(rules: Rules, fees: Manager, ts: Store, tx: Tx, readable: bool): Fate {
    if !readable then NotFetched
    else
      match Attempt(tx, fees.prices, ts)
      case Rejected => FailedPreExecute
      case Erred => Fate.Erred
      case Ran(result, _) =>
        match FirstOver(fees.consumed, result.units, rules.maxUnits, 0)
        case None => Included
        case Some(d) => if fees.consumed[d] >= rules.targetUnits[d] then Full else TooBig
  }

  /** An entry is right after the ones before it: it is the transaction at its place, with the fate that
      the filter gives it; or it was submitted, and has the fate of running on what was reached, or was
      skipped because of an earlier fault. */
  ghost predicate Justified(setting: Setting, before: seq<Entry>, e: Entry) {
    var b, p := e.slot.batch, e.slot.position;
    && b < |setting.batches| && p < |setting.batches[b].txs| && e.tx == setting.batches[b].txs[p]
    && match Filter(setting.batches[b], p, setting.targetSize)
       case Some(fate) => e.fate == fate
       case None =>
         if e.fate == Skipped then FirstFault(before).Some?
         else
           && Reached(setting, before).Some?
           && var (fees, ts) := Reached(setting, before).value;
              e.fate == RunFate(setting.rules, fees, ts, e.tx, p !in setting.batches[b].unreadable)
  }

  ghost predicate AllJustified(setting: Setting, journal: seq<Entry>) {
    journal != [] ==>
      && AllJustified(setting, journal[..|journal| - 1])
      && Justified(setting, journal[..|journal| - 1], journal[|journal| - 1])
  }

  lemma Snoc(setting: Setting, journal: seq<Entry>, e: Entry)
    ensures AllJustified(setting, journal + [e]) <==> AllJustified(setting, journal) && Justified(setting, journal, e)
    ensures FirstFault(journal + [e]) == if FirstFault(journal).Some? then FirstFault(journal) else FaultOf(e.fate)
    ensures forall kind :: Select(journal + [e], kind)
                        == if KindOf(e.fate) == kind then Select(journal, kind) + [e.tx] else Select(journal, kind)
  {
    assert (journal + [e])[..|journal|] == journal;
  }

  lemma {:induction false} JustifiedAt(setting: Setting, journal: seq<Entry>, i: nat)
    requires AllJustified(setting, journal) && i < |journal|
    ensures Justified(setting, journal[..i], journal[i])
  {
    var init := journal[..|journal| - 1];
    if i < |init| {
      JustifiedAt(setting, init, i);
      assert init[..i] == journal[..i];
    }
  }

  lemma {:induction false} FaultIsThere(journal: seq<Entry>)
    ensures FirstFault(journal).Some? <==> exists i :: 0 <= i < |journal| && FaultOf(journal[i].fate).Some?
    ensures FirstFault(journal).Some? ==>
              exists i :: 0 <= i < |journal| && FaultOf(journal[i].fate) == FirstFault(journal)
  {
    if journal != [] {
      var init := journal[..|journal| - 1];
      FaultIsThere(init);
      if i :| 0 <= i < |journal| && FaultOf(journal[i].fate).Some? {
        assert i < |init| ==> init[i] == journal[i];
      }
      if FirstFault(init).Some? {
        var i :| 0 <= i < |init| && FaultOf(init[i].fate) == FirstFault(init);
        assert journal[i] == init[i];
      } else if FaultOf(journal[|journal| - 1].fate).Some? {
        assert FaultOf(journal[|journal| - 1].fate) == FirstFault(journal);
      }
    }
  }

  /** What the journal selects was streamed. */
  lemma {:induction false} SelectedIsStreamed(setting: Setting, journal: seq<Entry>, kind: Kind)
    requires AllJustified(setting, journal)
    ensures forall tx :: tx in Select(journal, kind) ==> exists b :: b in setting.batches && tx in b.txs
  {
    if journal != [] {
      SelectedIsStreamed(setting, journal[..|journal| - 1], kind);
      var e := journal[|journal| - 1];
      assert setting.batches[e.slot.batch] in setting.batches;
      assert e.tx in setting.batches[e.slot.batch].txs;
    }
  }

  // ---- Why a transaction is not in the block -------------------------------------------------

  /** Every drop has its reason: the transaction is marked as a repeat; its keys are malformed; they cannot
      be read; or PreExecute fails on the store after the transactions included before. */
  lemma DropsAreEarned(setting: Setting, journal: seq<Entry>, i: nat)
    requires AllJustified(setting, journal) && i < |journal| && KindOf(journal[i].fate) == Dropped
    ensures var e := journal[i];
            e.slot.batch < |setting.batches| && e.slot.position < |setting.batches[e.slot.batch].txs|
            && var batch, p := setting.batches[e.slot.batch], e.slot.position;
               && e.tx == batch.txs[p] && batch.repeats.Some? && SizeOf(batch.txs[..p + 1]) <= setting.targetSize
               && (e.fate == Repeated <==> p in batch.repeats.value)
               && (e.fate == BadKeys <==> p !in batch.repeats.value && e.tx.keys.None?)
               && (e.fate == NotFetched <==> p !in batch.repeats.value && e.tx.keys.Some? && p in batch.unreadable)
               && (e.fate == FailedPreExecute ==>
                     && e.tx.keys.Some? && Reached(setting, journal[..i]).Some?
                     && var (fees, ts) := Reached(setting, journal[..i]).value;
                        !PreExecute(e.tx, fees.prices, View(ts, e.tx.keys.value)))
  {
    JustifiedAt(setting, journal, i);
  }

  /** Everything handed back has its reason: its batch could not be checked; it lies beyond the size target;
      Execute failed on the store reached; it ran there but its units do not fit; or an earlier fault
      stopped the executor before it. */
  lemma ReturnsAreEarned(setting: Setting, journal: seq<Entry>, i: nat)
    requires AllJustified(setting, journal) && i < |journal| && KindOf(journal[i].fate) == HandedBack
    ensures var e := journal[i];
            e.slot.batch < |setting.batches| && e.slot.position < |setting.batches[e.slot.batch].txs|
            && var batch, p := setting.batches[e.slot.batch], e.slot.position;
               && e.tx == batch.txs[p]
               && (e.fate == Unchecked <==> batch.repeats.None?)
               && (e.fate == OverSize <==> batch.repeats.Some? && SizeOf(batch.txs[..p + 1]) > setting.targetSize)
               && (e.fate == Skipped ==> exists j :: 0 <= j < i && FaultOf(journal[j].fate).Some?)
               && (e.fate in {Fate.Erred, TooBig, Full} ==>
                     && Reached(setting, journal[..i]).Some?
                     && var (fees, ts) := Reached(setting, journal[..i]).value;
                        match Attempt(e.tx, fees.prices, ts)
                        case Rejected => false
                        case Erred => e.fate == Fate.Erred
                        case Ran(result, _) =>
                          e.fate != Fate.Erred && !Fits(fees.consumed, result.units, setting.rules.maxUnits))
  {
    JustifiedAt(setting, journal, i);
    if journal[i].fate == Skipped {
      FaultIsThere(journal[..i]);
      var j :| 0 <= j < i && FaultOf(journal[..i][j].fate).Some?;
      assert FaultOf(journal[j].fate).Some?;
    }
  }

  /** The first dimension in which some units do not fit on what is consumed. */
  ghost predicate Misfit(consumed: Dimensions, units: Dimensions, limit: Dimensions, d: nat) {
    && d < 5 && consumed[d] as nat + units[d] as nat > limit[d] as nat
    && forall i :: 0 <= i < d ==> consumed[i] as nat + units[i] as nat <= limit[i] as nat
  }

  /** The first dimension that does not fit has reached the target already, or has not. */
  ghost predicate FillsBlock(rules: Rules, consumed: Dimensions, units: Dimensions) {
    exists d: nat :: Misfit(consumed, units, rules.maxUnits, d) && consumed[d] >= rules.targetUnits[d]
  }

  ghost predicate LeavesRoom(rules: Rules, consumed: Dimensions, units: Dimensions) {
    exists d: nat :: Misfit(consumed, units, rules.maxUnits, d) && consumed[d] < rules.targetUnits[d]
  }

  lemma MisfitDecides(rules: Rules, fees: Manager, ts: Store, tx: Tx, units: Dimensions)
    requires Attempt(tx, fees.prices, ts).Ran? && Attempt(tx, fees.prices, ts).result.units == units
    ensures RunFate(rules, fees, ts, tx, true) == Included <==> Fits(fees.consumed, units, rules.maxUnits)
    ensures RunFate(rules, fees, ts, tx, true) == Full <==> FillsBlock(rules, fees.consumed, units)
    ensures RunFate(rules, fees, ts, tx, true) == TooBig <==> LeavesRoom(rules, fees.consumed, units)
  {
    FirstOverIsMisfit(fees.consumed, units, rules.maxUnits);
    hide Attempt, FirstOver;
    if d :| FirstOver(fees.consumed, units, rules.maxUnits, 0) == Some(d) {
      assert Misfit(fees.consumed, units, rules.maxUnits, d);
    }
  }

  /** The fate of a transaction that was run: unreadable keys, a failed PreExecute and an error are named as
      such. One that ran is included exactly when it fits. Otherwise the block is full exactly when, in the
      first dimension that does not fit, the block has consumed its target already; short of that the
      transaction is merely too big. */
  lemma RunFates(setting: Setting, journal: seq<Entry>, i: nat)
    requires AllJustified(setting, journal) && i < |journal|
    requires journal[i].fate !in {Unchecked, OverSize, Repeated, BadKeys, Skipped}
    ensures var e := journal[i];
            && e.slot.batch < |setting.batches| && Reached(setting, journal[..i]).Some?
            && var (fees, ts) := Reached(setting, journal[..i]).value;
               && (e.fate == NotFetched <==> e.slot.position in setting.batches[e.slot.batch].unreadable)
               && (e.fate != NotFetched ==>
                     match Attempt(e.tx, fees.prices, ts)
                     case Rejected => e.fate == FailedPreExecute
                     case Erred => e.fate == Fate.Erred
                     case Ran(result, _) =>
                       && (e.fate == Included <==> Fits(fees.consumed, result.units, setting.rules.maxUnits))
                       && (e.fate == Full <==> FillsBlock(setting.rules, fees.consumed, result.units))
                       && (e.fate == TooBig <==> LeavesRoom(setting.rules, fees.consumed, result.units)))
  {
    JustifiedAt(setting, journal, i);
    hide Attempt, FirstOver, AllJustified, Reached, FillsBlock, LeavesRoom;
    var e := journal[i];
    var (fees, ts) := Reached(setting, journal[..i]).value;
    if e.fate != NotFetched && Attempt(e.tx, fees.prices, ts).Ran? {
      MisfitDecides(setting.rules, fees, ts, e.tx, Attempt(e.tx, fees.prices, ts).result.units);
    }
  }

  lemma FirstOverIsMisfit(consumed: Dimensions, units: Dimensions, limit: Dimensions)
    ensures forall d: nat :: FirstOver(consumed, units, limit, 0) == Some(d) <==> Misfit(consumed, units, limit, d)
  {
    FirstOverIsFirst(consumed, units, limit, 0);
  }

  lemma {:induction false} FirstOverIsFirst(consumed: Dimensions, units: Dimensions, limit: Dimensions, from: nat)
    requires from <= 5
    ensures var r := FirstOver(consumed, units, limit, from);
            r.Some? ==> forall i :: from <= i < r.value ==> consumed[i] as nat + units[i] as nat <= limit[i] as nat
    decreases 5 - from
  {
    if from < 5 {
      FirstOverIsFirst(consumed, units, limit, from + 1);
    }
  }

  /** The fate of a transaction that was not run: a batch that could not be checked, a place beyond the size
      target, a repeat, malformed keys, or a fault before it. */
  lemma OtherFates(setting: Setting, journal: seq<Entry>, i: nat)
    requires AllJustified(setting, journal) && i < |journal|
    ensures var e := journal[i];
            && e.slot.batch < |setting.batches| && e.slot.position < |setting.batches[e.slot.batch].txs|
            && var batch, p := setting.batches[e.slot.batch], e.slot.position;
               && e.tx == batch.txs[p]
               && (e.fate == Unchecked <==> batch.repeats.None?)
               && (e.fate == OverSize <==> batch.repeats.Some? && SizeOf(batch.txs[..p + 1]) > setting.targetSize)
               && (e.fate == Repeated <==>
                     && batch.repeats.Some? && SizeOf(batch.txs[..p + 1]) <= setting.targetSize
                     && p in batch.repeats.value)
               && (e.fate == BadKeys <==>
                     && batch.repeats.Some? && SizeOf(batch.txs[..p + 1]) <= setting.targetSize
                     && p !in batch.repeats.value && e.tx.keys.None?)
               && (e.fate == Skipped ==> exists j :: 0 <= j < i && Faulty(journal[j].fate))
  {
    JustifiedAt(setting, journal, i);
    if journal[i].fate == Skipped {
      FaultIsThere(journal[..i]);
      var j :| 0 <= j < i && FaultOf(journal[..i][j].fate).Some?;
      assert Faulty(journal[j].fate);
    }
  }

  /** A full block, an error and unreadable keys stop a build; a transaction that is merely too big, a repeat
      or one that PreExecute rejects does not. */
  predicate Faulty(fate: Fate) {
    fate == Full || fate == Fate.Erred || fate == NotFetched
  }

  /** The first fault in plain terms: the first entry that stops the build, if there is one. */
  lemma {:induction false} FirstFaultMeans(journal: seq<Entry>)
    ensures FirstFault(journal) == None <==> forall i :: 0 <= i < |journal| ==> !Faulty(journal[i].fate)
    ensures FirstFault(journal) == Some(BlockFull) <==> exists i: nat :: FirstFaulty(journal, i) && journal[i].fate == Full
    ensures FirstFault(journal) == Some(Unexpected) <==> exists i: nat :: FirstFaulty(journal, i) && journal[i].fate != Full
  {
    if journal != [] {
      var init, last := journal[..|journal| - 1], |journal| - 1;
      FirstFaultMeans(init);
      forall i | 0 <= i < last ensures FirstFaulty(journal, i) <==> FirstFaulty(init, i) {
        FaultyInPrefix(journal, i);
      }
      assert forall i :: 0 <= i < last ==> init[i] == journal[i];
      assert forall i: nat :: FirstFaulty(init, i) ==> i < last;
      if FirstFault(init).None? {
        assert Faulty(journal[last].fate) ==> FirstFaulty(journal, last);
      }
    }
  }

  ghost predicate FirstFaulty(journal: seq<Entry>, i: nat) {
    i < |journal| && Faulty(journal[i].fate) && forall j :: 0 <= j < i ==> !Faulty(journal[j].fate)
  }

  lemma FaultyInPrefix(journal: seq<Entry>, i: nat)
    requires i + 1 < |journal|
    ensures FirstFaulty(journal, i) <==> FirstFaulty(journal[..|journal| - 1], i)
  {
  }

  /** What is in the block, handed back and dropped. */
  lemma KindsAre(fate: Fate)
    ensures KindOf(fate) == InBlock <==> fate == Included
    ensures KindOf(fate) == Dropped <==> fate in {Repeated, BadKeys, FailedPreExecute, NotFetched}
    ensures KindOf(fate) == HandedBack <==> fate in {Unchecked, OverSize, Skipped, Fate.Erred, TooBig, Full}
  {
  }

  // ---- Every streamed transaction, exactly once ----------------------------------------------

  ghost function Slots(journal: seq<Entry>): set<Slot> {
    set e | e in journal :: e.slot
  }

  ghost predicate Unique(journal: seq<Entry>) {
    forall i, j :: 0 <= i < j < |journal| ==> journal[i].slot != journal[j].slot
  }

  /** The places of the first `b` batches, and the first `n` of the next one except the open ones. */
  ghost predicate Files(slots: set<Slot>, batches: seq<Batch>, b: nat, n: nat, open: set<nat>) {
    forall c: nat, p: nat ::
      Slot(c, p) in slots <==>
        (c < b && c < |batches| && p < |batches[c].txs|) || (c == b && p < n && p !in open)
  }

  lemma SlotsSnoc(journal: seq<Entry>, e: Entry)
    ensures Slots(journal + [e]) == Slots(journal) + {e.slot}
    ensures Unique(journal) && e.slot !in Slots(journal) ==> Unique(journal + [e])
  {
    var more := journal + [e];
    forall s ensures s in Slots(more) <==> s in Slots(journal) + {e.slot} {
      if s in Slots(journal) {
        var x :| x in journal && x.slot == s;
        assert x in more;
      }
      if s == e.slot {
        assert e in more;
      }
    }
    if e.slot !in Slots(journal) {
      forall i | 0 <= i < |journal| ensures journal[i].slot != e.slot {
        assert journal[i] in journal;
      }
    }
  }

  /** Filing the next place of a batch, or leaving it open, or filing one left open. */
  lemma FilesNext(slots: set<Slot>, batches: seq<Batch>, b: nat, n: nat, open: set<nat>)
    requires Files(slots, batches, b, n, open) && n !in open
    ensures Slot(b, n) !in slots && Files(slots + {Slot(b, n)}, batches, b, n + 1, open)
    ensures Files(slots, batches, b, n + 1, open + {n})
  {
  }

  lemma FilesOpen(slots: set<Slot>, batches: seq<Batch>, b: nat, n: nat, open: set<nat>, p: nat)
    requires Files(slots, batches, b, n, open) && p in open && p < n
    ensures Slot(b, p) !in slots && Files(slots + {Slot(b, p)}, batches, b, n, open - {p})
  {
  }

  lemma FilesBatch(slots: set<Slot>, batches: seq<Batch>, b: nat)
    requires b < |batches|
    ensures Files(slots, batches, b, |batches[b].txs|, {}) <==> Files(slots, batches, b + 1, 0, {})
  {
  }

  /** The transactions of the first batches. */
  function Streamed(batches: seq<Batch>): seq<Tx> {
    if batches == [] then [] else Streamed(batches[..|batches| - 1]) + batches[|batches| - 1].txs
  }

  function TxsOf(journal: seq<Entry>): (txs: seq<Tx>)
    ensures |txs| == |journal| && forall i :: 0 <= i < |txs| ==> txs[i] == journal[i].tx
  {
    seq(|journal|, i requires 0 <= i < |journal| => journal[i].tx)
  }

  /** Every entry has the transaction of its place. */
  ghost predicate Placed(batches: seq<Batch>, journal: seq<Entry>) {
    forall e :: e in journal ==>
      e.slot.batch < |batches| && e.slot.position < |batches[e.slot.batch].txs|
      && e.tx == batches[e.slot.batch].txs[e.slot.position]
  }

  lemma JustifiedIsPlaced(setting: Setting, journal: seq<Entry>)
    requires AllJustified(setting, journal)
    ensures Placed(setting.batches, journal)
  {
    forall e | e in journal
      ensures e.slot.batch < |setting.batches| && e.slot.position < |setting.batches[e.slot.batch].txs|
      ensures e.tx == setting.batches[e.slot.batch].txs[e.slot.position]
    {
      var i :| 0 <= i < |journal| && journal[i] == e;
      JustifiedAt(setting, journal, i);
    }
  }

  lemma SlotsDiffer(journal: seq<Entry>, i: nat, j: nat)
    requires Unique(journal) && i < j < |journal|
    ensures journal[i].slot != journal[j].slot
  {
  }

  lemma Find(journal: seq<Entry>, slot: Slot) returns (i: nat)
    requires slot in Slots(journal)
    ensures i < |journal| && journal[i].slot == slot
  {
    i :| 0 <= i < |journal| && journal[i].slot == slot;
  }

  /** Taking an entry out. */
  lemma WithoutEntry(journal: seq<Entry>, i: nat)
    requires Unique(journal) && i < |journal|
    ensures Unique(Without(journal, i))
    ensures Slots(Without(journal, i)) == Slots(journal) - {journal[i].slot}
    ensures multiset(TxsOf(journal)) == multiset(TxsOf(Without(journal, i))) + multiset{journal[i].tx}
    ensures forall e :: e in Without(journal, i) ==> e in journal
  {
    hide Slots, Unique;
    WithoutSlot(journal, i);
    WithoutOne(journal, i);
    WithoutOne(TxsOf(journal), i);
    assert TxsOf(Without(journal, i)) == Without(TxsOf(journal), i);
  }

  lemma WithoutSlot(journal: seq<Entry>, i: nat)
    requires Unique(journal) && i < |journal|
    ensures Unique(Without(journal, i))
    ensures Slots(Without(journal, i)) == Slots(journal) - {journal[i].slot}
  {
    hide Without;
    var rest := Without(journal, i);
    WithoutAt(journal, i);
    forall m, n | 0 <= m < n < |rest| ensures rest[m].slot != rest[n].slot {
      SlotsDiffer(journal, if m < i then m else m + 1, if n < i then n else n + 1);
    }
    forall s | s in Slots(rest) ensures s in Slots(journal) && s != journal[i].slot {
      var k := Find(rest, s);
      assert journal[if k < i then k else k + 1] in journal;
    }
    forall s | s in Slots(journal) && s != journal[i].slot ensures s in Slots(rest) {
      var k := Find(journal, s);
      assert rest[if k < i then k else k - 1] in rest;
    }
  }

  /** The last place filed, taken out. */
  lemma LastPlace(batches: seq<Batch>, b: nat, n: nat, journal: seq<Entry>) returns (rest: seq<Entry>)
    requires Unique(journal) && Placed(batches, journal) && Files(Slots(journal), batches, b, n, {})
    requires b < |batches| && 0 < n <= |batches[b].txs|
    ensures Unique(rest) && Placed(batches, rest) && Files(Slots(rest), batches, b, n - 1, {})
    ensures multiset(TxsOf(journal)) == multiset(TxsOf(rest)) + multiset{batches[b].txs[n - 1]}
  {
    hide Slots, Unique, TxsOf, Without;
    var i := Find(journal, Slot(b, n - 1));
    WithoutEntry(journal, i);
    assert journal[i] in journal;
    rest := Without(journal, i);
  }

  lemma NothingFiled(batches: seq<Batch>, journal: seq<Entry>)
    requires Files(Slots(journal), batches, 0, 0, {})
    ensures journal == []
  {
    if journal != [] {
      FirstIsFiled(journal);
    }
  }

  lemma FirstIsFiled(journal: seq<Entry>)
    requires journal != []
    ensures Slot(journal[0].slot.batch, journal[0].slot.position) in Slots(journal)
  {
    assert journal[0] in journal;
  }

  lemma StreamedMore(batches: seq<Batch>, b: nat)
    requires b < |batches|
    ensures Streamed(batches[..b + 1]) == Streamed(batches[..b]) + batches[b].txs
  {
    assert batches[..b + 1][..b] == batches[..b];
  }

  /** The stream up to some place. */
  function StreamTo(batches: seq<Batch>, b: nat, n: nat): seq<Tx>
    requires b <= |batches| && (if b < |batches| then n <= |batches[b].txs| else n == 0)
  {
    Streamed(batches[..b]) + if b < |batches| then batches[b].txs[..n] else []
  }

  lemma StreamToNext(batches: seq<Batch>, b: nat, n: nat)
    requires b < |batches| && n <= |batches[b].txs|
    ensures n > 0 ==> StreamTo(batches, b, n) == StreamTo(batches, b, n - 1) + [batches[b].txs[n - 1]]
    ensures StreamTo(batches, b + 1, 0) == StreamTo(batches, b, |batches[b].txs|)
  {
    StreamedMore(batches, b);
    assert batches[b].txs[..|batches[b].txs|] == batches[b].txs;
    if n > 0 {
      assert batches[b].txs[..n] == batches[b].txs[..n - 1] + [batches[b].txs[n - 1]];
    }
  }

  lemma StreamToNothing(batches: seq<Batch>)
    ensures multiset(TxsOf([])) == multiset(StreamTo(batches, 0, 0))
  {
    assert Streamed(batches[..0]) == [] && TxsOf([]) == [];
    assert batches != [] ==> batches[0].txs[..0] == [];
  }

  lemma OneMorePlace(batches: seq<Batch>, b: nat, n: nat, journal: seq<Entry>, rest: seq<Entry>)
    requires b < |batches| && 0 < n <= |batches[b].txs|
    requires multiset(TxsOf(rest)) == multiset(StreamTo(batches, b, n - 1))
    requires multiset(TxsOf(journal)) == multiset(TxsOf(rest)) + multiset{batches[b].txs[n - 1]}
    ensures multiset(TxsOf(journal)) == multiset(StreamTo(batches, b, n))
  {
    StreamToNext(batches, b, n);
  }

  /** A journal that files the stream up to some place holds exactly its transactions. */
  lemma {:induction false} JournalIsStream(batches: seq<Batch>, b: nat, n: nat, journal: seq<Entry>)
    requires Unique(journal) && Placed(batches, journal) && Files(Slots(journal), batches, b, n, {})
    requires b <= |batches| && (if b < |batches| then n <= |batches[b].txs| else n == 0)
    ensures multiset(TxsOf(journal)) == multiset(StreamTo(batches, b, n))
    decreases b, n
  {
    hide StreamTo, Placed, Unique, Slots;
    if n > 0 {
      var rest := LastPlace(batches, b, n, journal);
      JournalIsStream(batches, b, n - 1, rest);
      OneMorePlace(batches, b, n, journal, rest);
    } else if b > 0 {
      FilesBatch(Slots(journal), batches, b - 1);
      JournalIsStream(batches, b - 1, |batches[b - 1].txs|, journal);
      StreamToNext(batches, b - 1, 0);
    } else {
      NothingFiled(batches, journal);
      StreamToNothing(batches);
    }
  }

  /** Every entry is of one kind. */
  lemma {:induction false} KindsAddUp(journal: seq<Entry>)
    ensures multiset(TxsOf(journal))
         == multiset(Select(journal, InBlock)) + multiset(Select(journal, HandedBack)) + multiset(Select(journal, Dropped))
  {
    if journal != [] {
      var init, last := journal[..|journal| - 1], journal[|journal| - 1];
      KindsAddUp(init);
      assert TxsOf(journal) == TxsOf(init) + [last.tx];
    }
  }

  /** So what was streamed is what is in the block, handed back or dropped, each transaction once. */
  lemma StreamIsAccounted(setting: Setting, taken: nat, journal: seq<Entry>)
    requires AllJustified(setting, journal) && Unique(journal) && taken <= |setting.batches|
    requires Files(Slots(journal), setting.batches, taken, 0, {})
    ensures multiset(Streamed(setting.batches[..taken]))
         == multiset(Select(journal, InBlock)) + multiset(Select(journal, HandedBack)) + multiset(Select(journal, Dropped))
  {
    JustifiedIsPlaced(setting, journal);
    JournalIsStream(setting.batches, taken, 0, journal);
    assert StreamTo(setting.batches, taken, 0) == Streamed(setting.batches[..taken]);
    KindsAddUp(journal);
  }

  // ---- How far the stream is taken -----------------------------------------------------------

  ghost predicate FaultsAt(journal: seq<Entry>, b: nat) {
    forall i :: 0 <= i < |journal| && FaultOf(journal[i].fate).Some? ==> journal[i].slot.batch == b
  }

  /** Streaming goes through non-empty batches until there are no more, or one is empty, or one cannot be
      checked for repeats, or one has a fault; the last two end it with that batch. */
  ghost predicate Streams(batches: seq<Batch>, taken: nat, journal: seq<Entry>) {
    && Streaming(batches, taken, journal)
    && (taken < |batches| ==>
          || batches[taken].txs == []
          || (taken > 0 && (batches[taken - 1].repeats.None? || FirstFault(journal).Some?)))
  }

  ghost predicate Streaming(batches: seq<Batch>, taken: nat, journal: seq<Entry>) {
    && taken <= |batches|
    && (forall i :: 0 <= i < taken ==> batches[i].txs != [])
    && (forall i :: 0 <= i < taken - 1 ==> batches[i].repeats.Some?)
    && (FirstFault(journal).Some? ==> taken > 0 && FaultsAt(journal, taken - 1))
  }

  lemma StreamingMore(batches: seq<Batch>, taken: nat, journal: seq<Entry>, after: seq<Entry>)
    requires Streaming(batches, taken, journal) && taken < |batches| && batches[taken].txs != []
    requires taken > 0 ==> batches[taken - 1].repeats.Some?
    requires FaultsAt(after, taken)
    ensures Streaming(batches, taken + 1, after)
  {
  }

  /** Streaming stops before the end, or before an empty batch, only after a batch that could not be checked or
      that holds an entry which stops the build. */
  ghost predicate StoppedFor(batches: seq<Batch>, taken: nat, journal: seq<Entry>) {
    taken < |batches| && batches[taken].txs != [] ==>
      && taken > 0
      && (|| batches[taken - 1].repeats.None?
          || exists i :: 0 <= i < |journal| && journal[i].slot.batch == taken - 1 && Faulty(journal[i].fate))
  }

  /** So a transaction that is merely too big never stops it. */
  lemma StopsOnlyFor(batches: seq<Batch>, taken: nat, journal: seq<Entry>)
    requires Streams(batches, taken, journal)
    ensures StoppedFor(batches, taken, journal)
  {
    if taken < |batches| && batches[taken].txs != [] && batches[taken - 1].repeats.Some? {
      FaultIsThere(journal);
      var i :| 0 <= i < |journal| && FaultOf(journal[i].fate).Some?;
      assert Faulty(journal[i].fate) && journal[i].slot.batch == taken - 1;
    }
  }
}
