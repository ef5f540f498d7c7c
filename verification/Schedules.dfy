/** Schedules of a block's transactions: every schedule that runs conflicting transactions in block
    order gives the results and the store of running the block from front to back. */
module Schedules {
  import opened Bytes
  import opened Fees
  import opened ResultMessages
  import opened TxExecution

  /** A transaction and its position in the block. */
  datatype Item = Item(index: nat, tx: Tx)

  ghost predicate AllScoped(items: seq<Item>) {
    forall x :: x in items ==> Scoped(x.tx)
  }

  ghost predicate Ascending(items: seq<Item>) {
    forall i, j :: 0 <= i < j < |items| ==> items[i].index < items[j].index
  }

  /** The results by position and the store after running the items in this order; None when one of them
      fails. */
  function RunAll(items: seq<Item>, prices: Dimensions, s: Store): Option<(map<nat, Result>, Store)> {
    if items == [] then Some((map[], s))
    else match Attempt(items[0].tx, prices, s)
      case Rejected => None
      case Erred => None
      case Ran(result, next) =>
        match RunAll(items[1..], prices, next)
        case None => None
        case Some((results, end)) => Some((results[items[0].index := result], end))
  }

  /** The outcome of one item put before the outcome of the rest. */
  function Before(x: Item, outcome: Outcome, rest: Option<(map<nat, Result>, Store)>): Option<(map<nat, Result>, Store)> {
    if outcome.Ran? && rest.Some? then Some((rest.value.0[x.index := outcome.result], rest.value.1)) else None
  }

  lemma RunCons(x: Item, rest: seq<Item>, prices: Dimensions, s: Store)
    ensures var outcome := Attempt(x.tx, prices, s);
            RunAll([x] + rest, prices, s)
            == if outcome.Ran? then Before(x, outcome, RunAll(rest, prices, outcome.store)) else None
  {
    assert ([x] + rest)[1..] == rest;
  }

  lemma BeforeCommutes(a: Item, b: Item, ra: Outcome, rb: Outcome, ab: Outcome, ba: Outcome, rest: Option<(map<nat, Result>, Store)>)
    requires a.index != b.index && ra.Ran? && rb.Ran? && ab.Ran? && ba.Ran?
    requires ba.result == ra.result && ab.result == rb.result
    ensures Before(a, ra, Before(b, ab, rest)) == Before(b, rb, Before(a, ba, rest))
  {
    if rest.Some? {
      var m: map<nat, Result> := rest.value.0;
      assert m[b.index := rb.result][a.index := ra.result] == m[a.index := ra.result][b.index := rb.result];
    }
  }

  lemma RunTwo(a: Item, b: Item, rest: seq<Item>, prices: Dimensions, s: Store)
    requires Scoped(a.tx) && Scoped(b.tx) && !Conflict(a.tx, b.tx) && a.index != b.index
    ensures RunAll([a] + ([b] + rest), prices, s) == RunAll([b] + ([a] + rest), prices, s)
  {
    var ra, rb := Attempt(a.tx, prices, s), Attempt(b.tx, prices, s);
    RunCons(a, [b] + rest, prices, s);
    RunCons(b, [a] + rest, prices, s);
    if ra.Ran? {
      AttemptsCommute(a.tx, b.tx, prices, s);
      RunCons(b, rest, prices, ra.store);
    }
    if rb.Ran? {
      assert Conflict(b.tx, a.tx) == Conflict(a.tx, b.tx);
      AttemptsCommute(b.tx, a.tx, prices, s);
      RunCons(a, rest, prices, rb.store);
    }
    if ra.Ran? && rb.Ran? {
      var ab, ba := Attempt(b.tx, prices, ra.store), Attempt(a.tx, prices, rb.store);
      BeforeCommutes(a, b, ra, rb, ab, ba, RunAll(rest, prices, ab.store));
    }
  }

  /** An item can be run first when nothing before it conflicts with it. */
  lemma {:induction false} RunFirst(before: seq<Item>, x: Item, after: seq<Item>, prices: Dimensions, s: Store)
    requires AllScoped(before) && Scoped(x.tx)
    requires forall a :: a in before ==> a.index != x.index && !Conflict(a.tx, x.tx)
    ensures RunAll(before + ([x] + after), prices, s) == RunAll([x] + (before + after), prices, s)
  {
    if before == [] {
      assert before + ([x] + after) == [x] + (before + after);
    } else {
      var a, rest := before[0], before[1..] + after;
      assert before + ([x] + after) == [a] + (before[1..] + ([x] + after));
      assert before + after == [a] + rest;
      assert ([a] + (before[1..] + ([x] + after)))[1..] == before[1..] + ([x] + after);
      assert ([a] + ([x] + rest))[1..] == [x] + rest;
      if Attempt(a.tx, prices, s).Ran? {
        RunFirst(before[1..], x, after, prices, Attempt(a.tx, prices, s).store);
      }
      RunTwo(a, x, rest, prices, s);
    }
  }

  /** A schedule of the items: a reordering that keeps conflicting transactions in block order. */
  ghost predicate Schedule(items: seq<Item>, order: seq<Item>) {
    && multiset(items) == multiset(order)
    && forall i, j :: 0 <= i < j < |order| && Conflict(order[i].tx, order[j].tx) ==> order[i].index < order[j].index
  }

  /** Nothing before the first item of a schedule conflicts with it. */
  lemma FirstHasNoConflict(items: seq<Item>, order: seq<Item>, p: nat, a: Item)
    requires Ascending(items) && Schedule(items, order)
    requires order != [] && p < |items| && items[p] == order[0] && a in items[..p]
    ensures a.index < order[0].index && !Conflict(a.tx, order[0].tx)
  {
    var i :| 0 <= i < p && items[i] == a;
    assert a in multiset(items);
    assert a in order;
    var j :| 0 <= j < |order| && order[j] == a;
    assert Conflict(order[j].tx, order[0].tx) == Conflict(order[0].tx, order[j].tx);
  }

  lemma SameRest(items: seq<Item>, order: seq<Item>, p: nat)
    requires multiset(items) == multiset(order)
    requires order != [] && p < |items| && items[p] == order[0]
    ensures multiset(items[..p] + items[p + 1..]) == multiset(order[1..])
  {
    WithoutOne(items, p);
    WithoutOne(order, 0);
    assert Without(order, 0) == order[1..];
  }

  lemma TailIsSchedule(items: seq<Item>, order: seq<Item>, p: nat)
    requires Schedule(items, order)
    requires order != [] && p < |items| && items[p] == order[0]
    ensures Schedule(items[..p] + items[p + 1..], order[1..])
  {
    SameRest(items, order, p);
  }

  lemma RestIsAscending(items: seq<Item>, p: nat)
    requires Ascending(items) && AllScoped(items) && p < |items|
    ensures Ascending(items[..p] + items[p + 1..]) && AllScoped(items[..p] + items[p + 1..])
    ensures items == items[..p] + ([items[p]] + items[p + 1..])
  {
  }

  /** The first item of a schedule conflicts with none before it in the block, and the rest is a schedule of
      the others. */
  lemma FirstOfSchedule(items: seq<Item>, order: seq<Item>) returns (p: nat)
    requires Ascending(items) && AllScoped(items) && Schedule(items, order) && order != []
    ensures p < |items| && items[p] == order[0] && Scoped(items[p].tx)
    ensures items == items[..p] + ([items[p]] + items[p + 1..])
    ensures forall a :: a in items[..p] ==> a.index != items[p].index && !Conflict(a.tx, items[p].tx)
    ensures var rest := items[..p] + items[p + 1..];
            Ascending(rest) && AllScoped(rest) && Schedule(rest, order[1..])
  {
    hide Conflict, Scoped;
    assert order[0] in multiset(order);
    assert order[0] in items;
    p :| 0 <= p < |items| && items[p] == order[0];
    forall a | a in items[..p] ensures a.index != items[p].index && !Conflict(a.tx, items[p].tx) {
      FirstHasNoConflict(items, order, p, a);
    }
    RestIsAscending(items, p);
    TailIsSchedule(items, order, p);
  }

  /** Every schedule gives the same results and the same store as block order, and fails exactly when
      block order does. */
  lemma {:induction false} ScheduleIsSequential(items: seq<Item>, order: seq<Item>, prices: Dimensions, s: Store)
    requires Ascending(items) && AllScoped(items) && Schedule(items, order)
    ensures RunAll(order, prices, s) == RunAll(items, prices, s)
    decreases |order|
  {
    if order == [] {
      assert |multiset(items)| == |items|;
    } else {
      hide Attempt, Conflict, Schedule, Ascending;
      var p := FirstOfSchedule(items, order);
      var before, x, after := items[..p], items[p], items[p + 1..];
      RunFirst(before, x, after, prices, s);
      assert ([x] + (before + after))[1..] == before + after;
      if Attempt(x.tx, prices, s).Ran? {
        ScheduleIsSequential(before + after, order[1..], prices, Attempt(x.tx, prices, s).store);
      }
    }
  }
}
