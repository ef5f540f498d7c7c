/** The executor: it takes tasks with the keys they declare, and starts each one once nothing it waits for is
    left. Conflicting tasks run in the order in which they were submitted. */
module Executor {
  import opened Bytes
  import opened Fees
  import opened ResultMessages
  import opened TxExecution
  import opened Schedules
  import opened Interleavings
  import opened Building

  /** The tasks in order of submission; for each key the task that later ones go by; for each task those
      that read a key of it without changing it and have not finished; the tasks it waits for; and the
      tasks that have started and finished. */
  datatype State = State(
    tasks: seq<Tx>, nodes: map<Key, nat>, readers: seq<set<nat>>, waits: seq<set<nat>>,
    started: set<nat>, finished: set<nat>)

  const Empty := State([], map[], [], [], {}, {})

  // ---- Steps ---------------------------------------------------------------------------------

  /** The task that a key is gone by, in its set, when there is one. */
  function NodeOf(nodes: map<Key, nat>, k: Key): set<nat> {
    if k in nodes then {nodes[k]} else {}
  }

  /** What a new task waits for because of one key: the task of the key unless it has finished, and, when it
      needs the key for itself, that task's readers. */
  function DepsOf(st: State, k: Key, access: Access): set<nat>
    requires k in st.nodes ==> st.nodes[k] < |st.readers|
  {
    (NodeOf(st.nodes, k) - st.finished)
    + (if access == Exclusive && k in st.nodes then st.readers[st.nodes[k]] else {})
  }

  ghost predicate Shaped(st: State) {
    && |st.readers| == |st.waits| == |st.tasks|
    && (forall k :: k in st.nodes ==> st.nodes[k] < |st.tasks|)
  }

  function NodesAfter(st: State, scope: Scope): map<Key, nat> {
    map k | k in st.nodes.Keys + scope.Keys ::
      if k in scope && (k !in st.nodes || scope[k] == Exclusive) then |st.tasks| else st.nodes[k]
  }

  /** The tasks whose keys a new task only reads. */
  function Reads(st: State, scope: Scope): set<nat> {
    set k | k in scope && k in st.nodes && scope[k] == Shared :: st.nodes[k]
  }

  function ReadersAfter(st: State, scope: Scope): seq<set<nat>>
    requires |st.readers| == |st.tasks|
  {
    var id := |st.tasks|;
    seq(id + 1, n requires 0 <= n <= id =>
      if n == id then {} else if n in Reads(st, scope) then st.readers[n] + {id} else st.readers[n])
  }

  ghost function Deps(st: State, scope: Scope): set<nat>
    requires Shaped(st)
  {
    set k, n | k in scope && n in DepsOf(st, k, scope[k]) :: n
  }

  ghost function Submit(st: State, tx: Tx): State
    requires Shaped(st)
  {
    var id, scope := |st.tasks|, ScopeOf(tx);
    st.(tasks := st.tasks + [tx],
        nodes := NodesAfter(st, scope),
        readers := ReadersAfter(st, scope),
        waits := st.waits + [Deps(st, scope)])
  }

  predicate MayStart(st: State, i: nat) {
    i < |st.tasks| && i < |st.waits| && st.waits[i] == {} && i !in st.started
  }

  function Start(st: State, i: nat): State {
    st.(started := st.started + {i})
  }

  predicate MayFinish(st: State, i: nat) {
    i in st.started && i !in st.finished
  }

  /** A finished task is no longer a reader, and nothing waits for it any more. */
  function Finish(st: State, i: nat): State {
    st.(readers := seq(|st.readers|, n requires 0 <= n < |st.readers| => st.readers[n] - {i}),
        waits := seq(|st.waits|, n requires 0 <= n < |st.waits| => st.waits[n] - {i}),
        finished := st.finished + {i})
  }

  // ---- What every state satisfies ------------------------------------------------------------

  ghost predicate Unfinished(st: State, some: set<nat>, below: nat) {
    forall i :: i in some ==> i < below && i !in st.finished
  }

  ghost predicate Ids(st: State) {
    && Shaped(st)
    && st.finished <= st.started
    && (forall i: nat :: i in st.started ==> i < |st.tasks| && st.waits[i] == {})
    && (forall n :: 0 <= n < |st.tasks| ==> Unfinished(st, st.readers[n], |st.tasks|))
    && (forall j :: 0 <= j < |st.tasks| ==> Unfinished(st, st.waits[j], j))
  }

  /** Every declared key has a task, which declares it too. */
  ghost predicate KeysKnown(st: State) {
    && (forall i, k :: 0 <= i < |st.tasks| && k in ScopeOf(st.tasks[i]) ==> k in st.nodes)
    && (forall k :: k in st.nodes && st.nodes[k] < |st.tasks| ==> k in ScopeOf(st.tasks[st.nodes[k]]))
  }

  /** An unfinished task that declares a key is the task of the key, or one of its readers, or came before it
      while that one needs the key for itself. */
  ghost predicate Behind(st: State, i: nat, k: Key)
    requires Shaped(st) && i < |st.tasks| && k in ScopeOf(st.tasks[i]) && k in st.nodes
  {
    var n := st.nodes[k];
    || i == n
    || (n < i && ScopeOf(st.tasks[i])[k] == Shared && i in st.readers[n])
    || (i < n && k in ScopeOf(st.tasks[n]) && ScopeOf(st.tasks[n])[k] == Exclusive)
  }

  ghost predicate AllBehind(st: State)
    requires Shaped(st)
  {
    forall i, k :: 0 <= i < |st.tasks| && i !in st.finished && k in ScopeOf(st.tasks[i]) && k in st.nodes ==>
      Behind(st, i, k)
  }

  /** A task waits for an earlier one that conflicts with it: for that one itself, or for a later one that
      conflicts with that one too. */
  ghost predicate WaitsBehind(st: State, i: nat, j: nat)
    requires Shaped(st) && i < j < |st.tasks|
  {
    exists m :: m in st.waits[j] && (m == i || (i < m < |st.tasks| && Conflict(st.tasks[i], st.tasks[m])))
  }

  ghost predicate AllWait(st: State)
    requires Shaped(st)
  {
    forall i, j :: 0 <= i < j < |st.tasks| && i !in st.finished && Conflict(st.tasks[i], st.tasks[j]) ==>
      WaitsBehind(st, i, j)
  }

  ghost predicate Inv(st: State) {
    Ids(st) && KeysKnown(st) && AllBehind(st) && AllWait(st)
  }

  /** A task starts only after every earlier one that conflicts with it has finished. */
  lemma StartedInOrder(st: State, i: nat, j: nat)
    requires Ids(st) && AllWait(st) && i < j < |st.tasks| && Conflict(st.tasks[i], st.tasks[j]) && j in st.started
    ensures i in st.finished
  {
    assert st.waits[j] == {};
  }

  // ---- Submitting ----------------------------------------------------------------------------

  lemma DepsHas(st: State, scope: Scope, k: Key, n: nat)
    requires Shaped(st) && k in scope && n in DepsOf(st, k, scope[k])
    ensures n in Deps(st, scope)
  {
  }

  lemma SubmitKeepsIds(st: State, tx: Tx)
    requires Inv(st)
    ensures Ids(Submit(st, tx)) && KeysKnown(Submit(st, tx))
  {
    var t := Submit(st, tx);
    forall k | k in ScopeOf(tx) ensures Unfinished(st, DepsOf(st, k, ScopeOf(tx)[k]), |st.tasks|) {
      if k in st.nodes {
        assert Unfinished(st, st.readers[st.nodes[k]], |st.tasks|);
      }
    }
    assert Unfinished(t, Deps(st, ScopeOf(tx)), |st.tasks|);
    forall j | 0 <= j < |t.tasks| ensures Unfinished(t, t.waits[j], j) {
      assert j < |st.tasks| ==> Unfinished(st, st.waits[j], j);
    }
    forall n | 0 <= n < |t.tasks| ensures Unfinished(t, t.readers[n], |t.tasks|) {
      assert n < |st.tasks| ==> Unfinished(st, st.readers[n], |st.tasks|);
    }
  }

  lemma SubmitKeepsBehind(st: State, tx: Tx)
    requires Inv(st) && Ids(Submit(st, tx))
    ensures AllBehind(Submit(st, tx))
  {
    var t := Submit(st, tx);
    forall i, k | 0 <= i < |t.tasks| && i !in t.finished && k in ScopeOf(t.tasks[i]) && k in t.nodes
      ensures Behind(t, i, k)
    {
      if i < |st.tasks| {
        assert k in ScopeOf(st.tasks[i]) && Behind(st, i, k);
      } else if k in st.nodes && ScopeOf(tx)[k] == Shared {
        assert st.nodes[k] in Reads(st, ScopeOf(tx));
      }
    }
  }

  /** A new task waits for, or behind, every unfinished task that conflicts with it. */
  lemma NewWaits(st: State, tx: Tx, i: nat)
    requires Inv(st) && i < |st.tasks| && i !in st.finished && Conflict(st.tasks[i], tx)
    ensures exists m :: m in Deps(st, ScopeOf(tx)) && (m == i || (i < m < |st.tasks| && Conflict(st.tasks[i], st.tasks[m])))
  {
    var a, b := ScopeOf(st.tasks[i]), ScopeOf(tx);
    var k :| k in a && k in b && (a[k] == Exclusive || b[k] == Exclusive);
    var n := st.nodes[k];
    assert Behind(st, i, k);
    if i < n {
      assert Conflict(st.tasks[i], st.tasks[n]);
      if n in st.started {
        StartedInOrder(st, i, n);
      }
      DepsHas(st, b, k, n);
    } else {
      DepsHas(st, b, k, i);
    }
  }

  lemma SubmitKeepsWait(st: State, tx: Tx)
    requires Inv(st) && Ids(Submit(st, tx))
    ensures AllWait(Submit(st, tx))
  {
    var t := Submit(st, tx);
    forall i, j | 0 <= i < j < |t.tasks| && i !in t.finished && Conflict(t.tasks[i], t.tasks[j])
      ensures WaitsBehind(t, i, j)
    {
      if j < |st.tasks| {
        assert WaitsBehind(st, i, j);
        var m :| m in st.waits[j] && (m == i || (i < m < |st.tasks| && Conflict(st.tasks[i], st.tasks[m])));
        assert m in t.waits[j];
      } else {
        NewWaits(st, tx, i);
        var m :| m in Deps(st, ScopeOf(tx)) && (m == i || (i < m < |st.tasks| && Conflict(st.tasks[i], st.tasks[m])));
        assert m in t.waits[j];
      }
    }
  }

  // ---- Starting and finishing ----------------------------------------------------------------

  lemma StartKeeps(st: State, i: nat)
    requires Inv(st) && MayStart(st, i)
    ensures Inv(Start(st, i))
  {
    var t := Start(st, i);
    forall a, b | 0 <= a < b < |t.tasks| && a !in t.finished && Conflict(t.tasks[a], t.tasks[b])
      ensures WaitsBehind(t, a, b)
    {
      assert WaitsBehind(st, a, b);
    }
    forall a, k | 0 <= a < |t.tasks| && a !in t.finished && k in ScopeOf(t.tasks[a]) && k in t.nodes
      ensures Behind(t, a, k)
    {
      assert Behind(st, a, k);
    }
  }

  lemma FinishKeepsWait(st: State, x: nat)
    requires Inv(st) && MayFinish(st, x)
    ensures AllWait(Finish(st, x))
  {
    var t := Finish(st, x);
    forall i, j | 0 <= i < j < |t.tasks| && i !in t.finished && Conflict(t.tasks[i], t.tasks[j])
      ensures WaitsBehind(t, i, j)
    {
      assert WaitsBehind(st, i, j);
      var m :| m in st.waits[j] && (m == i || (i < m < |st.tasks| && Conflict(st.tasks[i], st.tasks[m])));
      if m == x {
        StartedInOrder(st, i, x);
      }
      assert m in t.waits[j];
    }
  }

  lemma FinishKeeps(st: State, x: nat)
    requires Inv(st) && MayFinish(st, x)
    ensures Inv(Finish(st, x))
  {
    FinishKeepsWait(st, x);
    var t := Finish(st, x);
    forall a, k | 0 <= a < |t.tasks| && a !in t.finished && k in ScopeOf(t.tasks[a]) && k in t.nodes
      ensures Behind(t, a, k)
    {
      assert Behind(st, a, k);
    }
  }

  /** The executor never gets stuck: while a task has not finished, some task is running or can start. */
  lemma NeverStuck(st: State, i: nat)
    requires Inv(st) && i < |st.tasks| && i !in st.finished
    ensures exists j: nat :: j <= i && (MayStart(st, j) || MayFinish(st, j))
    decreases i
  {
    if i in st.started {
      assert MayFinish(st, i);
    } else if st.waits[i] == {} {
      assert MayStart(st, i);
    } else {
      var j: nat :| j in st.waits[i];
      assert Unfinished(st, st.waits[i], i);
      NeverStuck(st, j);
      var k: nat :| k <= j && (MayStart(st, k) || MayFinish(st, k));
    }
  }

  // ---- Runs ----------------------------------------------------------------------------------

  datatype Step = Submitting(tx: Tx) | Starting(i: nat) | Finishing(i: nat)

  predicate May(st: State, step: Step) {
    match step
    case Submitting(_) => true
    case Starting(i) => MayStart(st, i)
    case Finishing(i) => MayFinish(st, i)
  }

  ghost function Do(st: State, step: Step): State
    requires Shaped(st)
  {
    match step
    case Submitting(tx) => Submit(st, tx)
    case Starting(i) => Start(st, i)
    case Finishing(i) => Finish(st, i)
  }

  lemma StepKeeps(st: State, step: Step)
    requires Inv(st) && May(st, step)
    ensures Inv(Do(st, step))
  {
    match step
    case Submitting(tx) =>
      SubmitKeepsIds(st, tx);
      SubmitKeepsBehind(st, tx);
      SubmitKeepsWait(st, tx);
    case Starting(i) => StartKeeps(st, i);
    case Finishing(i) => FinishKeeps(st, i);
  }

  ghost predicate Run(st: State, steps: seq<Step>, end: State)
    decreases |steps|
  {
    Shaped(st) && if steps == [] then end == st else May(st, steps[0]) && Run(Do(st, steps[0]), steps[1..], end)
  }

  /** What the workers do in a run: tasks begin and end. */
  ghost function Trace(st: State, steps: seq<Step>, end: State): seq<Event>
    requires Inv(st) && Run(st, steps, end)
    decreases |steps|
  {
    if steps == [] then []
    else
      StepKeeps(st, steps[0]);
      var rest := Trace(Do(st, steps[0]), steps[1..], end);
      match steps[0]
      case Submitting(_) => rest
      case Starting(i) => [Begin(Item(i, st.tasks[i]))] + rest
      case Finishing(i) => [End(Item(i, st.tasks[i]))] + rest
  }

  /** The tasks under way. */
  ghost function Underway(st: State): map<nat, Item>
    requires Ids(st)
  {
    map i | i in st.started && i !in st.finished :: Item(i, st.tasks[i])
  }

  /** In every run, no two conflicting tasks are under way together. */
  lemma {:induction false} TraceIsIsolated(st: State, steps: seq<Step>, end: State)
    requires Inv(st) && Run(st, steps, end)
    ensures Isolated(Trace(st, steps, end), Underway(st))
    decreases |steps|
  {
    if steps != [] {
      var t, trace := Do(st, steps[0]), Trace(st, steps, end);
      StepKeeps(st, steps[0]);
      TraceIsIsolated(t, steps[1..], end);
      UnderwayMoves(st, steps[0]);
      if !steps[0].Submitting? {
        assert trace[1..] == Trace(t, steps[1..], end);
      }
      if steps[0].Finishing? {
        UnderwayAreApart(st, steps[0].i);
      }
    }
  }

  lemma UnderwayMoves(st: State, step: Step)
    requires Inv(st) && May(st, step) && Inv(Do(st, step))
    ensures Underway(Do(st, step))
         == (match step
             case Submitting(_) => Underway(st)
             case Starting(i) => Underway(st)[i := Item(i, st.tasks[i])]
             case Finishing(i) => Underway(st) - {i})
  {
  }

  lemma UnderwayAreApart(st: State, i: nat)
    requires Inv(st) && MayFinish(st, i)
    ensures forall j :: j in Underway(st) && j != i ==> !Conflict(st.tasks[i], Underway(st)[j].tx)
  {
    forall j | j in Underway(st) && j != i ensures !Conflict(st.tasks[i], st.tasks[j]) {
      assert Conflict(st.tasks[i], st.tasks[j]) == Conflict(st.tasks[j], st.tasks[i]);
      if Conflict(st.tasks[i], st.tasks[j]) {
        StartedInOrder(st, if i < j then i else j, if i < j then j else i);
      }
    }
  }

  // ---- A whole block -------------------------------------------------------------------------

  lemma {:induction false} RunGrows(st: State, steps: seq<Step>, end: State)
    requires Inv(st) && Run(st, steps, end)
    ensures Inv(end) && st.tasks <= end.tasks && st.finished <= end.finished
    decreases |steps|
  {
    if steps != [] {
      StepKeeps(st, steps[0]);
      RunGrows(Do(st, steps[0]), steps[1..], end);
    }
  }

  // ---- No needless waiting -------------------------------------------------------------------

  predicate Shares(a: Tx, b: Tx) {
    exists k :: k in ScopeOf(a) && k in ScopeOf(b)
  }

  /** Two tasks share a key, or each shares one with a third task. */
  ghost predicate Related(tasks: seq<Tx>, a: Tx, b: Tx) {
    Shares(a, b) || exists l :: 0 <= l < |tasks| && Shares(a, tasks[l]) && Shares(tasks[l], b)
  }

  ghost predicate ReadersShare(st: State)
    requires Shaped(st)
  {
    forall n, i: nat :: 0 <= n < |st.readers| && i in st.readers[n] ==> i < |st.tasks| && Shares(st.tasks[i], st.tasks[n])
  }

  ghost predicate WaitsShare(st: State)
    requires Shaped(st)
  {
    forall j, i: nat :: 0 <= j < |st.waits| && i in st.waits[j] ==>
      i < |st.tasks| && Related(st.tasks, st.tasks[i], st.tasks[j])
  }

  lemma NewWaitsShare(st: State, tx: Tx)
    requires Inv(st) && ReadersShare(st)
    ensures forall i :: i in Deps(st, ScopeOf(tx)) ==> i < |st.tasks| && Related(st.tasks, st.tasks[i], tx)
  {
    forall i | i in Deps(st, ScopeOf(tx)) ensures i < |st.tasks| && Related(st.tasks, st.tasks[i], tx) {
      var k :| k in ScopeOf(tx) && i in DepsOf(st, k, ScopeOf(tx)[k]);
      var n := st.nodes[k];
      assert Shares(st.tasks[n], tx);
      if i != n {
        assert i in st.readers[n];
        assert Shares(st.tasks[i], st.tasks[n]);
      }
    }
  }

  lemma RelatedStays(tasks: seq<Tx>, more: seq<Tx>, a: Tx, b: Tx)
    requires Related(tasks, a, b) && tasks <= more
    ensures Related(more, a, b)
  {
    if !Shares(a, b) {
      var l :| 0 <= l < |tasks| && Shares(a, tasks[l]) && Shares(tasks[l], b);
      assert more[l] == tasks[l];
    }
  }

  lemma SubmitShares(st: State, tx: Tx)
    requires Inv(st) && ReadersShare(st) && WaitsShare(st) && Shaped(Submit(st, tx))
    ensures ReadersShare(Submit(st, tx)) && WaitsShare(Submit(st, tx))
  {
    var t := Submit(st, tx);
    NewWaitsShare(st, tx);
    forall n, i: nat | 0 <= n < |t.readers| && i in t.readers[n] ensures i < |t.tasks| && Shares(t.tasks[i], t.tasks[n]) {
      if n < |st.readers| && i !in st.readers[n] {
        var k :| k in ScopeOf(tx) && k in st.nodes && ScopeOf(tx)[k] == Shared && st.nodes[k] == n;
        assert k in ScopeOf(st.tasks[n]);
      }
    }
    forall j, i: nat | 0 <= j < |t.waits| && i in t.waits[j]
      ensures i < |t.tasks| && Related(t.tasks, t.tasks[i], t.tasks[j])
    {
      RelatedStays(st.tasks, t.tasks, t.tasks[i], t.tasks[j]);
    }
  }

  lemma StepShares(st: State, step: Step)
    requires Inv(st) && May(st, step) && ReadersShare(st) && WaitsShare(st) && Shaped(Do(st, step))
    ensures ReadersShare(Do(st, step)) && WaitsShare(Do(st, step))
  {
    match step
    case Submitting(tx) => SubmitShares(st, tx);
    case Starting(_) =>
    case Finishing(_) =>
  }

  /** In every run a task waits only for tasks that it is related to: one that shares no key with them,
      directly or through a third task, does not wait. */
  lemma {:induction false} WaitsAreRelated(st: State, steps: seq<Step>, end: State)
    requires Inv(st) && Run(st, steps, end) && ReadersShare(st) && WaitsShare(st)
    ensures Inv(end) && WaitsShare(end)
    decreases |steps|
  {
    if steps != [] {
      StepKeeps(st, steps[0]);
      StepShares(st, steps[0]);
      WaitsAreRelated(Do(st, steps[0]), steps[1..], end);
    }
  }

  ghost predicate Occurs(order: seq<Item>, i: nat) {
    exists p :: 0 <= p < |order| && order[p].index == i
  }

  /** The tasks end each once, exactly those that finish in the run, conflicting ones in the order in which
      they were submitted. */
  ghost predicate EndsWell(st: State, end: State, order: seq<Item>) {
    && (forall p :: 0 <= p < |order| ==>
          && order[p].index < |end.tasks| && order[p].tx == end.tasks[order[p].index]
          && order[p].index in end.finished && order[p].index !in st.finished)
    && (forall i :: i in end.finished && i !in st.finished ==> Occurs(order, i))
    && (forall p, q :: 0 <= p < q < |order| ==>
          && order[p].index != order[q].index
          && (Conflict(order[p].tx, order[q].tx) ==> order[p].index < order[q].index))
  }

  lemma EndsWellMore(st: State, x: nat, end: State, rest: seq<Item>)
    requires Inv(st) && MayFinish(st, x) && st.tasks <= end.tasks && st.finished + {x} <= end.finished
    requires EndsWell(Finish(st, x), end, rest)
    ensures EndsWell(st, end, [Item(x, st.tasks[x])] + rest)
  {
    var order := [Item(x, st.tasks[x])] + rest;
    assert forall p :: 0 < p < |order| ==> order[p] == rest[p - 1];
    forall q | 0 <= q < |rest| ensures rest[q].index != x && (Conflict(st.tasks[x], rest[q].tx) ==> x < rest[q].index) {
      EndsLater(st, x, end, rest, q);
    }
    forall i | i in end.finished && i !in st.finished ensures Occurs(order, i) {
      if i == x {
        assert order[0].index == i;
      } else {
        assert Occurs(rest, i);
        var p :| 0 <= p < |rest| && rest[p].index == i;
        assert order[p + 1].index == i;
      }
    }
  }

  /** What ends after a task that it conflicts with was submitted after it. */
  lemma EndsLater(st: State, x: nat, end: State, rest: seq<Item>, q: nat)
    requires Inv(st) && MayFinish(st, x) && st.tasks <= end.tasks && q < |rest|
    requires EndsWell(Finish(st, x), end, rest)
    ensures rest[q].index != x && (Conflict(st.tasks[x], rest[q].tx) ==> x < rest[q].index)
  {
    var y := rest[q].index;
    assert y !in Finish(st, x).finished;
    if y < x {
      assert Conflict(rest[q].tx, st.tasks[x]) == Conflict(st.tasks[x], rest[q].tx);
      if Conflict(st.tasks[x], rest[q].tx) {
        StartedInOrder(st, y, x);
      }
    }
  }

  lemma {:induction false} TraceEndsWell(st: State, steps: seq<Step>, end: State)
    requires Inv(st) && Run(st, steps, end)
    ensures EndsWell(st, end, Ends(Trace(st, steps, end)))
    decreases |steps|
  {
    if steps != [] {
      var t, trace := Do(st, steps[0]), Trace(st, steps, end);
      StepKeeps(st, steps[0]);
      RunGrows(t, steps[1..], end);
      TraceEndsWell(t, steps[1..], end);
      if steps[0].Finishing? {
        assert trace[1..] == Trace(t, steps[1..], end);
        EndsWellMore(st, steps[0].i, end, Ends(trace[1..]));
      } else if steps[0].Starting? {
        assert trace[1..] == Trace(t, steps[1..], end);
      }
    }
  }

  ghost predicate Permutes(items: seq<Item>, order: seq<Item>) {
    && (forall p :: 0 <= p < |order| ==> order[p].index < |items| && order[p] == items[order[p].index])
    && (forall p, q :: 0 <= p < q < |order| ==> order[p].index != order[q].index)
    && (forall i: nat :: i < |items| ==> Occurs(order, i))
  }

  lemma PermutesLess(items: seq<Item>, order: seq<Item>, p: nat)
    requires Permutes(items, order) && items != [] && p < |order| && order[p].index == |items| - 1
    ensures Permutes(items[..|items| - 1], Without(order, p))
  {
    hide Without;
    var rest := Without(order, p);
    WithoutAt(order, p);
    forall k | 0 <= k < |rest| ensures rest[k].index < |items| - 1 && rest[k] == items[rest[k].index] {
      var q := if k < p then k else k + 1;
      assert rest[k] == order[q] && order[q].index != order[p].index;
    }
    forall m, n | 0 <= m < n < |rest| ensures rest[m].index != rest[n].index {
      assert rest[m] == order[if m < p then m else m + 1] && rest[n] == order[if n < p then n else n + 1];
    }
    forall i: nat | i < |items| - 1 ensures Occurs(rest, i) {
      assert Occurs(order, i);
      var k :| 0 <= k < |order| && order[k].index == i;
      assert rest[if k < p then k else k - 1].index == i;
    }
  }

  lemma LastOccurs(items: seq<Item>, order: seq<Item>) returns (p: nat)
    requires Permutes(items, order)
    ensures if items == [] then order == []
            else p < |order| && order[p].index == |items| - 1 && order[p] == items[|items| - 1]
  {
    p := 0;
    if items != [] {
      assert Occurs(order, |items| - 1);
      p :| 0 <= p < |order| && order[p].index == |items| - 1;
    }
  }

  lemma {:induction false} PermutationIsSame(items: seq<Item>, order: seq<Item>)
    requires Permutes(items, order)
    ensures multiset(items) == multiset(order)
    decreases |items|
  {
    hide Permutes, Without;
    var p := LastOccurs(items, order);
    if items != [] {
      var n := |items| - 1;
      PermutesLess(items, order, p);
      PermutationIsSame(items[..n], Without(order, p));
      WithoutOne(order, p);
      assert items == items[..n] + [items[n]];
    }
  }

  ghost predicate Complete(st: State) {
    forall i: nat :: i < |st.tasks| ==> i in st.finished
  }

  /** Whatever the order in which workers pick up what can start, and however tasks overlap: once all tasks
      of a block have finished they ended in a schedule of the block. */
  lemma TraceIsSchedule(steps: seq<Step>, end: State)
    requires Run(Empty, steps, end) && Complete(end)
    ensures Schedule(Items(end.tasks), Ends(Trace(Empty, steps, end)))
  {
    var items, order := Items(end.tasks), Ends(Trace(Empty, steps, end));
    RunGrows(Empty, steps, end);
    TraceEndsWell(Empty, steps, end);
    PermutationIsSame(items, order);
  }

  lemma {:induction false} TraceIsScoped(st: State, steps: seq<Step>, end: State)
    requires Inv(st) && Run(st, steps, end) && (forall tx :: tx in end.tasks ==> Scoped(tx))
    ensures forall e :: e in Trace(st, steps, end) ==> Scoped(e.x.tx)
    decreases |steps|
  {
    if steps != [] {
      StepKeeps(st, steps[0]);
      RunGrows(st, steps, end);
      TraceIsScoped(Do(st, steps[0]), steps[1..], end);
      if !steps[0].Submitting? {
        assert end.tasks[steps[0].i] in end.tasks;
      }
    }
  }

  /** And the results and the store are those of running the block from front to back. */
  lemma ExecutorIsSequential(steps: seq<Step>, end: State, prices: Dimensions, s: Store)
    requires Run(Empty, steps, end) && Complete(end) && (forall tx :: tx in end.tasks ==> Scoped(tx))
    ensures Interleave(Trace(Empty, steps, end), map[], prices, s) == RunAll(Items(end.tasks), prices, s)
  {
    TraceIsSchedule(steps, end);
    TraceIsIsolated(Empty, steps, end);
    TraceIsScoped(Empty, steps, end);
    assert Underway(Empty) == map[];
    assert AllScoped(Items(end.tasks)) by {
      assert forall x :: x in Items(end.tasks) ==> x.tx in end.tasks;
    }
    InterleavingIsSequential(Items(end.tasks), Trace(Empty, steps, end), prices, s);
  }

  // ---- The executor itself -------------------------------------------------------------------

  /** Part of a scope. */
  function Only(scope: Scope, keys: set<Key>): Scope {
    map k | k in keys && k in scope :: scope[k]
  }

  lemma NothingRecorded(st: State, scope: Scope, id: nat)
    requires Shaped(st) && id == |st.tasks|
    ensures Recorded(st, Only(scope, scope.Keys - scope.Keys), st.nodes, st.readers + [{}], {})
  {
    assert Only(scope, scope.Keys - scope.Keys) == map[];
    assert ReadersAfter(st, map[]) == st.readers + [{}];
  }

  /** One more key. */
  lemma RecordKey(
    st: State, scope: Scope, done: set<Key>, k: Key, nodes: map<Key, nat>, readers: seq<set<nat>>, dependencies: set<nat>)
    requires Inv(st) && done <= scope.Keys && k in scope && k !in done
    requires Recorded(st, Only(scope, done), nodes, readers, dependencies)
    ensures |readers| == |st.tasks| + 1 && (k in nodes <==> k in st.nodes)
    ensures k in nodes ==> nodes[k] == st.nodes[k] < |st.tasks|
    ensures var id, more := |st.tasks|, Only(scope, done + {k});
            if k !in nodes then Recorded(st, more, nodes[k := id], readers, dependencies)
            else
              var lt := nodes[k];
              var deps := dependencies + if lt in st.finished then {} else {lt};
              if scope[k] == Shared then Recorded(st, more, nodes, readers[lt := readers[lt] + {id}], deps)
              else Recorded(st, more, nodes[k := id], readers, deps + (readers[lt] - {id}))
  {
    RecordNodes(st, scope, done, k);
    RecordReaders(st, scope, done, k);
    RecordDeps(st, scope, done, k);
  }

  lemma RecordNodes(st: State, scope: Scope, done: set<Key>, k: Key)
    requires Shaped(st) && done <= scope.Keys && k in scope && k !in done
    ensures var nodes, after := NodesAfter(st, Only(scope, done)), NodesAfter(st, Only(scope, done + {k}));
            && (k in nodes <==> k in st.nodes) && (k in nodes ==> nodes[k] == st.nodes[k])
            && after == if k !in nodes || scope[k] == Exclusive then nodes[k := |st.tasks|] else nodes
  {
  }

  lemma RecordReaders(st: State, scope: Scope, done: set<Key>, k: Key)
    requires Shaped(st) && done <= scope.Keys && k in scope && k !in done
    ensures var readers, after := ReadersAfter(st, Only(scope, done)), ReadersAfter(st, Only(scope, done + {k}));
            after == if k in st.nodes && scope[k] == Shared
                     then readers[st.nodes[k] := readers[st.nodes[k]] + {|st.tasks|}] else readers
  {
    var before, more := Only(scope, done), Only(scope, done + {k});
    assert Reads(st, more) == Reads(st, before) + (if k in st.nodes && scope[k] == Shared then {st.nodes[k]} else {}) by {
      forall n ensures n in Reads(st, more) <==>
                         n in Reads(st, before) || (k in st.nodes && scope[k] == Shared && n == st.nodes[k])
      {
        if n in Reads(st, before) {
          var j :| j in before && j in st.nodes && before[j] == Shared && st.nodes[j] == n;
          assert j in more && more[j] == Shared;
        }
        if k in st.nodes && scope[k] == Shared && n == st.nodes[k] {
          assert k in more && more[k] == Shared;
        }
      }
    }
  }

  lemma RecordDeps(st: State, scope: Scope, done: set<Key>, k: Key)
    requires Inv(st) && done <= scope.Keys && k in scope && k !in done
    ensures Deps(st, Only(scope, done + {k})) == Deps(st, Only(scope, done)) + DepsOf(st, k, scope[k])
    ensures k in st.nodes ==>
              var lt := st.nodes[k];
              ReadersAfter(st, Only(scope, done))[lt] - {|st.tasks|} == st.readers[lt]
  {
    var before, more := Only(scope, done), Only(scope, done + {k});
    forall n ensures n in Deps(st, more) <==> n in Deps(st, before) || n in DepsOf(st, k, scope[k]) {
      if n in Deps(st, before) {
        var j :| j in before && n in DepsOf(st, j, before[j]);
        DepsHas(st, more, j, n);
      }
      if n in DepsOf(st, k, scope[k]) {
        DepsHas(st, more, k, n);
      }
      if n in Deps(st, more) {
        var j :| j in more && n in DepsOf(st, j, more[j]);
        if j != k {
          DepsHas(st, before, j, n);
        }
      }
    }
    if k in st.nodes {
      assert Unfinished(st, st.readers[st.nodes[k]], |st.tasks|);
    }
  }

  class Executor {
    var tasks: seq<Tx>
    var nodes: map<Key, nat>
    var readers: seq<set<nat>>
    var waits: seq<set<nat>>
    var started: set<nat>
    var finished: set<nat>

    ghost function S(): State
      reads this
    {
      State(tasks, nodes, readers, waits, started, finished)
    }

    constructor ()
      ensures S() == Empty
    {
      tasks, nodes, readers, waits, started, finished := [], map[], [], [], {}, {};
    }

    /** Run: records what the new task waits for, key by key, in whatever order the keys come. */
    method Run(tx: Tx)
      requires Inv(S())
      modifies this
      ensures Inv(S()) && S() == Submit(old(S()), tx)
    {
      ghost var st := S();
      var id, scope := |tasks|, if tx.keys.Some? then tx.keys.value else map[];
      var dependencies: set<nat>, rest := {}, scope.Keys;
      tasks, readers := tasks + [tx], readers + [{}];
      SubmitKeeps(st, tx);
      NothingRecorded(st, scope, id);
      while rest != {}
        invariant rest <= scope.Keys && tasks == st.tasks + [tx] && waits == st.waits
        invariant started == st.started && finished == st.finished
        invariant Recorded(st, Only(scope, scope.Keys - rest), nodes, readers, dependencies)
        decreases rest
      {
        var k :| k in rest;
        assert scope.Keys - (rest - {k}) == scope.Keys - rest + {k};
        dependencies := RecordOne(st, scope, scope.Keys - rest, k, id, dependencies);
        rest := rest - {k};
      }
      assert Only(scope, scope.Keys - rest) == scope;
      waits := waits + [dependencies];
    }

    /** One key of a new task: it reads along, or takes the key over and waits for its readers. */
    method RecordOne(ghost st: State, scope: Scope, ghost done: set<Key>, k: Key, id: nat, dependencies: set<nat>)
      returns (more: set<nat>)
      requires Inv(st) && done <= scope.Keys && k in scope && k !in done && id == |st.tasks| && finished == st.finished
      requires Recorded(st, Only(scope, done), nodes, readers, dependencies)
      modifies this`nodes, this`readers
      ensures Recorded(st, Only(scope, done + {k}), nodes, readers, more)
    {
      hide Inv, NodesAfter, ReadersAfter, Deps;
      RecordKey(st, scope, done, k, nodes, readers, dependencies);
      more := dependencies;
      if k in nodes {
        var lt := nodes[k];
        if scope[k] == Shared {
          readers := readers[lt := readers[lt] + {id}];
        } else {
          more := more + (readers[lt] - {id});
          nodes := nodes[k := id];
        }
        if lt !in finished {
          more := more + {lt};
        }
      } else {
        nodes := nodes[k := id];
      }
    }

    /** A worker takes a task that waits for nothing. */
    method StartTask(i: nat)
      requires Inv(S()) && MayStart(S(), i)
      modifies this`started
      ensures Inv(S()) && S() == Start(old(S()), i)
    {
      StartKeeps(S(), i);
      started := started + {i};
    }

    /** The end of runTask: the task is no longer a reader, and those waiting for it wait no more. */
    method FinishTask(i: nat)
      requires Inv(S()) && MayFinish(S(), i)
      modifies this`readers, this`waits, this`finished
      ensures Inv(S()) && S() == Finish(old(S()), i)
    {
      FinishKeeps(S(), i);
      readers := seq(|readers|, n requires 0 <= n < |readers| reads this => readers[n] - {i});
      waits := seq(|waits|, n requires 0 <= n < |waits| reads this => waits[n] - {i});
      finished := finished + {i};
    }
  }

  lemma SubmitKeeps(st: State, tx: Tx)
    requires Inv(st)
    ensures Inv(Submit(st, tx))
  {
    StepKeeps(st, Submitting(tx));
  }

  /** What Run has recorded after some of the keys. */
  ghost predicate Recorded(st: State, scope: Scope, nodes: map<Key, nat>, readers: seq<set<nat>>, dependencies: set<nat>)
    requires Shaped(st)
  {
    && nodes == NodesAfter(st, scope)
    && readers == ReadersAfter(st, scope)
    && dependencies == Deps(st, scope)
  }
}
