/** Overlapping tasks: a task takes its view of the store when it begins and commits when it ends. As long as
    no task ends while one that conflicts with it is under way, this is as if each ran in one step. */
module Interleavings {
  import opened Bytes
  import opened Fees
  import opened ResultMessages
  import opened TxExecution
  import opened Schedules

  datatype Event = Begin(x: Item) | End(x: Item)

  /** PreExecute and Execute on a view taken earlier, committed to the store as it is now. */
  function AttemptOn(tx: Tx, prices: Dimensions, view: Store, s: Store): Outcome {
    if tx.keys.None? || !PreExecute(tx, prices, view) then Rejected
    else match Execute(tx, prices, view)
      case None => Erred
      case Some((result, after)) => Ran(result, CommitView(s, ScopeOf(tx), after))
  }

  /** The results and the store after some events; `views` are those of the tasks under way. None when one
      fails, or ends without having begun. */
  function Interleave(events: seq<Event>, views: map<nat, Store>, prices: Dimensions, s: Store): Option<(map<nat, Result>, Store)> {
    if events == [] then Some((map[], s))
    else match events[0]
      case Begin(x) => Interleave(events[1..], views[x.index := View(s, ScopeOf(x.tx))], prices, s)
      case End(x) =>
        if x.index !in views then None
        else match AttemptOn(x.tx, prices, views[x.index], s)
          case Ran(result, next) =>
            (match Interleave(events[1..], views - {x.index}, prices, next)
             case None => None
             case Some((results, end)) => Some((results[x.index := result], end)))
          case _ => None
  }

  /** Every task begins before it ends, and does not conflict with the others under way when it ends. */
  ghost predicate Isolated(events: seq<Event>, open: map<nat, Item>) {
    events != [] ==>
      match events[0]
      case Begin(x) => x.index !in open && Isolated(events[1..], open[x.index := x])
      case End(x) =>
        && x.index in open && open[x.index] == x
        && (forall i :: i in open && i != x.index ==> !Conflict(x.tx, open[i].tx))
        && Isolated(events[1..], open - {x.index})
  }

  /** The tasks in the order in which they end. */
  function Ends(events: seq<Event>): seq<Item> {
    if events == [] then []
    else if events[0].End? then [events[0].x] + Ends(events[1..])
    else Ends(events[1..])
  }

  /** The views of the tasks under way are what they would be if taken now. */
  ghost predicate Current(open: map<nat, Item>, views: map<nat, Store>, s: Store) {
    views.Keys == open.Keys && forall i :: i in open ==> Scoped(open[i].tx) && views[i] == View(s, ScopeOf(open[i].tx))
  }

  /** A task that ends does not change what the others under way see. */
  lemma EndKeepsViews(open: map<nat, Item>, views: map<nat, Store>, s: Store, x: Item, prices: Dimensions)
    requires Current(open, views, s) && x.index in open && open[x.index] == x && Attempt(x.tx, prices, s).Ran?
    requires forall i :: i in open && i != x.index ==> !Conflict(x.tx, open[i].tx)
    ensures Current(open - {x.index}, views - {x.index}, Attempt(x.tx, prices, s).store)
  {
    var view := View(s, ScopeOf(x.tx));
    ExecuteCharges(x.tx, prices, view);
    var after := Execute(x.tx, prices, view).value.1;
    forall i | i in open && i != x.index
      ensures views[i] == View(Attempt(x.tx, prices, s).store, ScopeOf(open[i].tx))
    {
      ViewUnaffected(x.tx, open[i].tx, s, after);
    }
  }

  /** Overlapping tasks give the results and the store of running them one by one as they end. */
  lemma {:induction false} OverlappingIsAtomic(
    events: seq<Event>, open: map<nat, Item>, views: map<nat, Store>, prices: Dimensions, s: Store)
    requires Isolated(events, open) && Current(open, views, s)
    requires forall e :: e in events ==> Scoped(e.x.tx)
    ensures Interleave(events, views, prices, s) == RunAll(Ends(events), prices, s)
    decreases |events|
  {
    hide View, Execute, PreExecute, Conflict, CommitView, Scoped;
    if events != [] {
      var x, rest := events[0].x, events[1..];
      assert events[0] in events;
      if events[0].Begin? {
        OverlappingIsAtomic(rest, open[x.index := x], views[x.index := View(s, ScopeOf(x.tx))], prices, s);
      } else {
        RunCons(x, Ends(rest), prices, s);
        if Attempt(x.tx, prices, s).Ran? {
          EndKeepsViews(open, views, s, x, prices);
          OverlappingIsAtomic(rest, open - {x.index}, views - {x.index}, prices, Attempt(x.tx, prices, s).store);
        }
      }
    }
  }

  /** So overlapping tasks that keep conflicting ones apart and end them in block order give the results and
      the store of block order. */
  lemma InterleavingIsSequential(items: seq<Item>, events: seq<Event>, prices: Dimensions, s: Store)
    requires Ascending(items) && AllScoped(items) && Schedule(items, Ends(events)) && Isolated(events, map[])
    requires forall e :: e in events ==> Scoped(e.x.tx)
    ensures Interleave(events, map[], prices, s) == RunAll(items, prices, s)
  {
    OverlappingIsAtomic(events, map[], map[], prices, s);
    ScheduleIsSequential(items, Ends(events), prices, s);
  }
}
