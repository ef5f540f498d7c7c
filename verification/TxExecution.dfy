/** Executing transactions on declared state keys, and why their order matters only where they conflict. */
module TxExecution {
  import opened Bytes
  import opened Fees
  import opened ResultMessages

  type Key(==, !new)

  type Value(==, !new)

  type Store = map<Key, Value>

  /** A key declared for reading only is shared; any other permission makes it exclusive. */
  datatype Access = Shared | Exclusive

  type Scope = map<Key, Access>

  /** What an action does to the part of the store it can see. */
  datatype ActionResult = Failed(error: seq<Byte>) | Done(store: Store, output: seq<Byte>)

  /** A transaction at the block's time and under its rules. `keys` and `units` are what StateKeys and
      Units compute, None being an error; `valid` says that the chain ID, the expiry and the validity
      ranges of PreExecute check out. The balance handler and the actions are functions of the
      declared part of the store. */
  datatype Tx = Tx(
    id: Id,
    size: nat,
    keys: Option<Scope>,
    units: Option<Dimensions>,
    valid: bool,
    canDeduct: (Store, U64) -> bool,
    deduct: (Store, U64) -> Option<Store>,
    actions: seq<Store -> ActionResult>)

  /** `after` differs from `before` in exclusive keys of the scope only. */
  ghost predicate Confined(scope: Scope, before: Store, after: Store) {
    && after.Keys <= scope.Keys
    && forall k :: k in scope && scope[k] == Shared ==>
         (k in after <==> k in before) && (k in before ==> after[k] == before[k])
  }

  /** The view of the store keeps a transaction to the keys it declared. */
  ghost predicate Scoped(tx: Tx) {
    tx.keys.Some? ==>
      && (forall s: Store, fee: U64 :: s.Keys <= tx.keys.value.Keys && tx.deduct(s, fee).Some? ==>
            Confined(tx.keys.value, s, tx.deduct(s, fee).value))
      && (forall i, s: Store :: 0 <= i < |tx.actions| && s.Keys <= tx.keys.value.Keys && tx.actions[i](s).Done? ==>
            Confined(tx.keys.value, s, tx.actions[i](s).store))
  }

  // ---- One transaction -----------------------------------------------------------------------

  /** PreExecute: the transaction is valid now and its sponsor can pay. */
  predicate PreExecute(tx: Tx, prices: Dimensions, view: Store) {
    && tx.valid && tx.units.Some?
    && Fee(prices, tx.units.value).Some?
    && tx.canDeduct(view, Fee(prices, tx.units.value).value)
  }

  /** Runs the actions one after the other on a view that was already charged: all of them, or none once
      one fails. */
  function RunActions(
    actions: seq<Store -> ActionResult>, charged: Store, view: Store, outputs: seq<seq<Byte>>, units: Dimensions, fee: U64)
    : (Result, Store)
  {
    if actions == [] then (Result(true, [], outputs, units, fee), view)
    else match actions[0](view)
      case Failed(error) => (Result(false, error, outputs, units, fee), charged)
      case Done(next, output) => RunActions(actions[1..], charged, next, outputs + [output], units, fee)
  }

  /** Execute: charges the fee, then runs the actions. None is an error. */
  function Execute(tx: Tx, prices: Dimensions, view: Store): Option<(Result, Store)> {
    if tx.units.None? || Fee(prices, tx.units.value).None? then None
    else
      var fee := Fee(prices, tx.units.value).value;
      match tx.deduct(view, fee)
      case None => None
      case Some(charged) => Some(RunActions(tx.actions, charged, charged, [], tx.units.value, fee))
  }

  /** Execute, with its checkpoint before the actions and the rollback to it. */
  method ExecuteTx(tx: Tx, prices: Dimensions, view: Store) returns (r: Option<(Result, Store)>)
    ensures r == Execute(tx, prices, view)
  {
    if tx.units.None? {
      return None;
    }
    var units := tx.units.value;
    var fee := Fee(prices, units);
    if fee.None? {
      return None;
    }
    var charged := tx.deduct(view, fee.value);
    if charged.None? {
      return None;
    }
    var ts, outputs := charged.value, [];
    var i := 0;
    assert tx.actions[0..] == tx.actions;
    while i < |tx.actions|
      invariant i <= |tx.actions|
      invariant RunActions(tx.actions[i..], charged.value, ts, outputs, units, fee.value)
             == RunActions(tx.actions, charged.value, charged.value, [], units, fee.value)
    {
      assert tx.actions[i..][0] == tx.actions[i] && tx.actions[i..][1..] == tx.actions[i + 1..];
      match tx.actions[i](ts) {
        case Failed(error) =>
          ts := charged.value;
          return Some((Result(false, error, outputs, units, fee.value), ts));
        case Done(next, output) =>
          ts, outputs := next, outputs + [output];
      }
      i := i + 1;
    }
    r := Some((Result(true, [], outputs, units, fee.value), ts));
  }

  lemma {:induction false} ActionsAreConfined(
    tx: Tx, from: nat, charged: Store, view: Store, outputs: seq<seq<Byte>>, units: Dimensions, fee: U64)
    requires Scoped(tx) && tx.keys.Some? && from <= |tx.actions|
    requires charged.Keys <= tx.keys.value.Keys && Confined(tx.keys.value, charged, view)
    ensures var r := RunActions(tx.actions[from..], charged, view, outputs, units, fee);
            && Confined(tx.keys.value, charged, r.1)
            && r.0.units == units && r.0.fee == fee
            && (!r.0.success ==> r.1 == charged)
            && |r.0.outputs| <= |outputs| + (|tx.actions| - from)
    decreases |tx.actions| - from
  {
    var rest := tx.actions[from..];
    if from < |tx.actions| {
      assert rest[0] == tx.actions[from] && rest[1..] == tx.actions[from + 1..];
      if rest[0](view).Done? {
        ActionsAreConfined(tx, from + 1, charged, rest[0](view).store, outputs + [rest[0](view).output], units, fee);
      }
    }
  }

  /** The fee is charged in full for the units whether or not the actions succeed, failing actions leave
      nothing else behind, and nothing but exclusive keys changes. */
  lemma ExecuteCharges(tx: Tx, prices: Dimensions, view: Store)
    requires Scoped(tx) && tx.keys.Some? && view.Keys <= tx.keys.value.Keys
    requires Execute(tx, prices, view).Some?
    ensures tx.units.Some? && Fee(prices, tx.units.value).Some?
    ensures var (result, after) := Execute(tx, prices, view).value;
            && result.units == tx.units.value && result.fee == Fee(prices, tx.units.value).value
            && Confined(tx.keys.value, view, after)
            && tx.deduct(view, result.fee).Some?
            && (!result.success ==> after == tx.deduct(view, result.fee).value)
  {
    var fee := Fee(prices, tx.units.value).value;
    var charged := tx.deduct(view, fee).value;
    assert tx.actions[0..] == tx.actions;
    ActionsAreConfined(tx, 0, charged, charged, [], tx.units.value, fee);
  }

  // ---- What the answer means -----------------------------------------------------------------

  /** The stores that the actions go through: each of the first n is done and leaves the next store, and
      then there is no further action, or one that fails. */
  ghost predicate GoesThrough(actions: seq<Store -> ActionResult>, stores: seq<Store>, n: nat) {
    && n <= |actions| && |stores| == n + 1
    && (forall i :: 0 <= i < n ==> actions[i](stores[i]).Done? && stores[i + 1] == actions[i](stores[i]).store)
    && (n < |actions| ==> actions[n](stores[n]).Failed?)
  }

  /** The outputs are those of the first n actions. */
  ghost predicate AreOutputs(actions: seq<Store -> ActionResult>, stores: seq<Store>, n: nat, outputs: seq<seq<Byte>>)
    requires GoesThrough(actions, stores, n)
  {
    |outputs| == n && forall i :: 0 <= i < n ==> outputs[i] == actions[i](stores[i]).output
  }

  lemma {:induction false} ActionsAnswer(
    actions: seq<Store -> ActionResult>, charged: Store, view: Store, outputs: seq<seq<Byte>>, units: Dimensions, fee: U64)
    returns (stores: seq<Store>, n: nat, mine: seq<seq<Byte>>)
    ensures GoesThrough(actions, stores, n) && stores[0] == view && AreOutputs(actions, stores, n, mine)
    ensures var (result, after) := RunActions(actions, charged, view, outputs, units, fee);
            && result.units == units && result.fee == fee
            && result.success == (n == |actions|)
            && result.outputs == outputs + mine
            && result.error == (if n == |actions| then [] else actions[n](stores[n]).error)
            && after == (if n == |actions| then stores[n] else charged)
    decreases |actions|
  {
    if actions == [] || actions[0](view).Failed? {
      stores, n, mine := [view], 0, [];
      assert outputs + [] == outputs;
    } else {
      var first := actions[0](view);
      var later, m, others := ActionsAnswer(actions[1..], charged, first.store, outputs + [first.output], units, fee);
      stores, n, mine := [view] + later, m + 1, [first.output] + others;
      assert outputs + [first.output] + others == outputs + mine;
      assert forall i :: 0 <= i < m ==> actions[1..][i] == actions[i + 1];
    }
  }

  /** Execute fails exactly when the units are unknown, the fee overflows or cannot be deducted. Otherwise it
      charges the fee and goes through the actions: it succeeds exactly when none of them fails, hands out
      the outputs of those before the first failure, which gives the error, and leaves the last store on
      success and the charged one on failure. */
  lemma ExecuteAnswers(tx: Tx, prices: Dimensions, view: Store) returns (stores: seq<Store>, n: nat)
    ensures Execute(tx, prices, view).Some?
            <==> && tx.units.Some? && Cost(prices, tx.units.value) < 0x1_0000_0000_0000_0000
                 && tx.deduct(view, Cost(prices, tx.units.value)).Some?
    ensures Execute(tx, prices, view).Some? ==>
              var (result, after) := Execute(tx, prices, view).value;
              && GoesThrough(tx.actions, stores, n)
              && Some(stores[0]) == tx.deduct(view, Cost(prices, tx.units.value))
              && result.fee == Cost(prices, tx.units.value) && result.units == tx.units.value
              && (result.success <==> n == |tx.actions|)
              && AreOutputs(tx.actions, stores, n, result.outputs)
              && result.error == (if n == |tx.actions| then [] else tx.actions[n](stores[n]).error)
              && after == (if n == |tx.actions| then stores[n] else stores[0])
  {
    stores, n := [], 0;
    if tx.units.Some? {
      FeeIsCost(prices, tx.units.value);
      hide Cost, Dot;
      if Execute(tx, prices, view).Some? {
        var fee := Fee(prices, tx.units.value).value;
        var charged := tx.deduct(view, fee).value;
        var mine;
        stores, n, mine := ActionsAnswer(tx.actions, charged, charged, [], tx.units.value, fee);
        assert [] + mine == mine;
      }
    }
  }

  // ---- On the block's store ------------------------------------------------------------------

  function View(s: Store, scope: Scope): (v: Store)
    ensures v.Keys <= scope.Keys
  {
    map k | k in scope && k in s :: s[k]
  }

  /** Committing a view. */
  function CommitView(s: Store, scope: Scope, view: Store): Store {
    (s - scope.Keys) + view
  }

  /** The keys a transaction declares. */
  function ScopeOf(tx: Tx): Scope {
    if tx.keys.Some? then tx.keys.value else map[]
  }

  datatype Outcome = Rejected | Erred | Ran(result: Result, store: Store)

  /** PreExecute and Execute on a fresh view, committed when they succeed. */
  function Attempt(tx: Tx, prices: Dimensions, s: Store): Outcome {
    var view := View(s, ScopeOf(tx));
    if tx.keys.None? || !PreExecute(tx, prices, view) then Rejected
    else match Execute(tx, prices, view)
      case None => Erred
      case Some((result, after)) => Ran(result, CommitView(s, ScopeOf(tx), after))
  }

  /** The part of a store that a scope declares. */
  ghost predicate IsView(s: Store, scope: Scope, view: Store) {
    forall k :: (k in view <==> k in scope && k in s) && (k in view ==> view[k] == s[k])
  }

  /** A transaction is rejected exactly when its keys are malformed, it is not valid now, its units are
      unknown, or its fee overflows or cannot be paid from what it declares; it errs exactly when the fee
      then cannot be deducted; and otherwise it runs. */
  lemma AttemptAnswers(tx: Tx, prices: Dimensions, s: Store, view: Store)
    requires IsView(s, ScopeOf(tx), view)
    ensures Attempt(tx, prices, s).Rejected?
            <==> !(&& tx.keys.Some? && tx.valid && tx.units.Some?
                   && Cost(prices, tx.units.value) < 0x1_0000_0000_0000_0000
                   && tx.canDeduct(view, Cost(prices, tx.units.value)))
    ensures Attempt(tx, prices, s).Erred?
            <==> !Attempt(tx, prices, s).Rejected? && tx.deduct(view, Cost(prices, tx.units.value)).None?
  {
    assert view == View(s, ScopeOf(tx));
    if tx.units.Some? {
      FeeIsCost(prices, tx.units.value);
    }
  }

  /** A transaction that runs leaves what it does not declare, and in the rest what executing it on what it
      declares leaves there. */
  lemma AttemptLeaves(tx: Tx, prices: Dimensions, s: Store, view: Store)
    requires Scoped(tx) && IsView(s, ScopeOf(tx), view) && Attempt(tx, prices, s).Ran?
    ensures Execute(tx, prices, view).Some?
    ensures var (result, after) := Execute(tx, prices, view).value;
            && Attempt(tx, prices, s).result == result
            && forall k ::
                 var t := Attempt(tx, prices, s).store;
                 if k in ScopeOf(tx) then (k in t <==> k in after) && (k in t ==> t[k] == after[k])
                 else (k in t <==> k in s) && (k in t ==> t[k] == s[k])
  {
    assert view == View(s, ScopeOf(tx));
    ExecuteCharges(tx, prices, view);
  }

  /** Two transactions conflict when they share a key that one of them may change. */
  predicate Conflict(a: Tx, b: Tx) {
    exists k :: k in ScopeOf(a) && k in ScopeOf(b) && (ScopeOf(a)[k] == Exclusive || ScopeOf(b)[k] == Exclusive)
  }

  /** Running one of two transactions that do not conflict does not change what the other sees. */
  lemma ViewUnaffected(a: Tx, b: Tx, s: Store, after: Store)
    requires !Conflict(a, b) && Confined(ScopeOf(a), View(s, ScopeOf(a)), after)
    ensures View(CommitView(s, ScopeOf(a), after), ScopeOf(b)) == View(s, ScopeOf(b))
  {
    var t := CommitView(s, ScopeOf(a), after);
    forall k | k in ScopeOf(b) ensures (k in t <==> k in s) && (k in s ==> t[k] == s[k]) {
      if k in ScopeOf(a) {
        assert ScopeOf(a)[k] == Shared;
        assert k in View(s, ScopeOf(a)) <==> k in s;
      }
    }
  }

  lemma CommitsCommute(a: Scope, b: Scope, s: Store, va: Store, vb: Store)
    requires va.Keys <= a.Keys && vb.Keys <= b.Keys
    requires forall k :: k in a && k in b ==>
               (k in va <==> k in s) && (k in vb <==> k in s) && (k in s ==> va[k] == s[k] && vb[k] == s[k])
    ensures CommitView(CommitView(s, a, va), b, vb) == CommitView(CommitView(s, b, vb), a, va)
  {
  }

  /** Transactions that do not conflict can be run in either order. */
  lemma AttemptsCommute(a: Tx, b: Tx, prices: Dimensions, s: Store)
    requires Scoped(a) && Scoped(b) && !Conflict(a, b)
    requires Attempt(a, prices, s).Ran?
    ensures var ra, rb := Attempt(a, prices, s), Attempt(b, prices, s);
            var ab := Attempt(b, prices, ra.store);
            && ab.Ran? == rb.Ran?
            && (rb.Ran? ==>
                  var ba := Attempt(a, prices, rb.store);
                  ba.Ran? && ba.result == ra.result && ab.result == rb.result && ab.store == ba.store)
  {
    var sa, sb := ScopeOf(a), ScopeOf(b);
    ExecuteCharges(a, prices, View(s, sa));
    var va := Execute(a, prices, View(s, sa)).value.1;
    ViewUnaffected(a, b, s, va);
    if Attempt(b, prices, s).Ran? {
      ExecuteCharges(b, prices, View(s, sb));
      var vb := Execute(b, prices, View(s, sb)).value.1;
      ViewUnaffected(b, a, s, vb);
      forall k | k in sa && k in sb
        ensures (k in va <==> k in s) && (k in vb <==> k in s) && (k in s ==> va[k] == s[k] && vb[k] == s[k])
      {
        assert sa[k] == Shared && sb[k] == Shared;
        assert k in View(s, sa) <==> k in s;
        assert k in View(s, sb) <==> k in s;
      }
      CommitsCommute(sa, sb, s, va, vb);
    }
  }
}
