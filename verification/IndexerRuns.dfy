/** Runs of the indexer: delivery of consecutive blocks, redelivery of any of them, and restarts all
    leave the caches and the database on the same window of blocks. */
module IndexerRuns {
  import opened Bytes
  import opened Indexer

  /** A delivered height that has not left the window. */
  predicate InWindow(h: U64, first: U64, last: U64, window: U64) {
    first <= h <= last && last as nat < h as nat + window as nat
  }

  /** The heights of the last `window` blocks of a chain delivered from `first` to `last`. */
  function WindowOf(first: U64, last: U64, window: U64): set<U64> {
    set h: U64 | first <= h <= last && InWindow(h, first, last, window)
  }

  /** Inserting the heights from `from` up to and including `to`, in order. */
  function InsertRange(heights: set<U64>, window: U64, from: U64, to: U64): set<U64>
    decreases to as nat + 1 - from as nat
  {
    if from > to then heights
    else if from == to then Insert(heights, window, from)
    else InsertRange(Insert(heights, window, from), window, from + 1, to)
  }

  lemma InsertAt(heights: set<U64>, window: U64, h: U64, g: U64)
    ensures g in Insert(heights, window, h) <==>
              g == h || (g in heights && g as nat + window as nat != h as nat)
  {
  }

  /** The window of a chain with the heights from `from` up to and including `to` inserted again. */
  ghost predicate Replaying(heights: set<U64>, first: U64, last: U64, window: U64, from: U64, to: U64) {
    forall g: U64 :: g in heights <==> InWindow(g, first, last, window) || InWindow(g, from, to, window)
  }

  lemma ReplayStep(heights: set<U64>, first: U64, last: U64, window: U64, from: U64, to: U64)
    requires 0 < window && first <= from <= to + 1 <= last
    requires Replaying(heights, first, last, window, from, to)
    ensures Replaying(Insert(heights, window, to + 1), first, last, window, from, to + 1)
  {
    var next: U64 := to + 1;
    var after := Insert(heights, window, next);
    forall g: U64 ensures g in after <==> InWindow(g, first, last, window) || InWindow(g, from, next, window) {
      InsertAt(heights, window, next, g);
    }
  }

  lemma {:induction false} ReplayRange(heights: set<U64>, first: U64, last: U64, window: U64, from: U64, next: U64)
    requires 0 < window && first <= from < next <= last
    requires Replaying(heights, first, last, window, from, next - 1)
    ensures Replaying(InsertRange(heights, window, next, last), first, last, window, from, last)
    decreases last - next
  {
    ReplayStep(heights, first, last, window, from, next - 1);
    if next < last {
      ReplayRange(Insert(heights, window, next), first, last, window, from, next + 1);
    }
  }

  /** Delivering again any of the blocks, from some height up to the last one, changes nothing, however
      far back it starts. */
  lemma ReplayChangesNothing(first: U64, last: U64, window: U64, from: U64)
    requires 0 < window && first <= from <= last
    ensures InsertRange(WindowOf(first, last, window), window, from, last) == WindowOf(first, last, window)
  {
    var start := WindowOf(first, last, window);
    var once := Insert(start, window, from);
    forall g: U64 ensures g in once <==> InWindow(g, first, last, window) || InWindow(g, from, from, window) {
      InsertAt(start, window, from, g);
    }
    if from < last {
      ReplayRange(once, first, last, window, from, from + 1);
    }
    assert Replaying(InsertRange(start, window, from, last), first, last, window, from, last);
  }

  /** Delivering the next block moves the window up by one. */
  lemma DeliveryMovesWindow(first: U64, last: U64, window: U64)
    requires 0 < window && first <= last && last as nat + 1 < NO_HEIGHT as nat
    ensures Insert(WindowOf(first, last, window), window, last + 1) == WindowOf(first, last + 1, window)
  {
    var next: U64 := last + 1;
    var after, moved := Insert(WindowOf(first, last, window), window, next), WindowOf(first, next, window);
    forall g: U64 ensures g in after <==> g in moved {
      InsertAt(WindowOf(first, last, window), window, next, g);
    }
  }

  lemma FirstDelivery(first: U64, window: U64)
    requires 0 < window
    ensures Insert({}, window, first) == WindowOf(first, first, window)
  {
  }

  /** Rebuilding the caches from a stored window gives the same window. */
  lemma RebuildGivesWindow(first: U64, last: U64, window: U64)
    requires 0 < window
    ensures Unsuperseded(WindowOf(first, last, window), window) == WindowOf(first, last, window)
  {
  }

  // ---- Any run -------------------------------------------------------------------------------

  /** What happens to the indexer: the next block, all blocks from some height on again, or a restart. */
  datatype Event = Deliver | Redeliver(from: U64) | Restart

  /** The cached and the stored heights, and the chain delivered so far. */
  datatype Held = Held(cached: set<U64>, stored: set<U64>, first: U64, last: U64)

  ghost predicate Possible(k: Held, window: U64, e: Event) {
    match e
    case Deliver => k.last as nat + 1 + window as nat < NO_HEIGHT as nat
    case Redeliver(from) => k.first <= from <= k.last
    case Restart => true
  }

  /** One event, as Notify and InitBlocks carry it out. */
  function After(k: Held, window: U64, e: Event): Held
    requires e.Deliver? ==> k.last as nat + 1 < NO_HEIGHT as nat
  {
    match e
    case Deliver => Held(Insert(k.cached, window, k.last + 1), Insert(k.stored, window, k.last + 1), k.first, k.last + 1)
    case Redeliver(from) =>
      k.(cached := InsertRange(k.cached, window, from, k.last), stored := InsertRange(k.stored, window, from, k.last))
    case Restart =>
      k.(cached := Unsuperseded(k.stored, window),
         stored := set h | h in k.stored && k.last as nat <= h as nat + window as nat)
  }

  ghost predicate OnWindow(k: Held, window: U64) {
    k.first <= k.last && k.cached == k.stored == WindowOf(k.first, k.last, window)
  }

  /** After every event the three caches project the last `window` blocks, and the database holds the
      same ones. */
  lemma EventKeepsWindow(k: Held, window: U64, e: Event)
    requires 0 < window && OnWindow(k, window) && Possible(k, window, e)
    ensures OnWindow(After(k, window, e), window)
  {
    match e
    case Deliver => DeliveryMovesWindow(k.first, k.last, window);
    case Redeliver(from) => ReplayChangesNothing(k.first, k.last, window, from);
    case Restart => RebuildGivesWindow(k.first, k.last, window);
  }

  ghost predicate Run(k: Held, window: U64, events: seq<Event>, end: Held)
    decreases |events|
  {
    if events == [] then end == k
    else Possible(k, window, events[0]) && Run(After(k, window, events[0]), window, events[1..], end)
  }

  lemma {:induction false} RunsKeepWindow(k: Held, window: U64, events: seq<Event>, end: Held)
    requires 0 < window && OnWindow(k, window) && Run(k, window, events, end)
    ensures OnWindow(end, window)
    decreases |events|
  {
    if events != [] {
      EventKeepsWindow(k, window, events[0]);
      RunsKeepWindow(After(k, window, events[0]), window, events[1..], end);
    }
  }
}
