/** Crash bookkeeping: the index, the row of execution results and the state each record a height, at
    different points of accepting a block, and a process can stop between any two of them. */
module CrashHeights {
  import opened Bytes

  const ACCEPTED_QUEUE_SIZE := 16

  /** The heights on disk: of the chain index, of the results row and of the state. */
  datatype Disk = Disk(index: Option<nat>, results: Option<nat>, state: Option<nat>)

  /** Where the accepter stands: waiting; holding a block; past writing its results; past committing its
      state, before it takes the next one. */
  datatype Accepter = Waiting | Holding(h: nat) | Written(h: nat) | Committed(h: nat)

  /** A running process: the queue, the block whose index entry is written but which is not queued yet,
      and the accepter. */
  datatype Process = Process(queue: seq<nat>, pending: Option<nat>, accepter: Accepter)

  datatype Node = Stopped(disk: Disk) | Running(disk: Disk, process: Process)

  const Empty := Disk(None, None, None)
  const Fresh := Process([], None, Waiting)

  // ---- Starting ------------------------------------------------------------------------------

  /** What initLastAccepted finds: nothing, so genesis is created; the height of the output block to
      start from; that the last block must be executed again; or an inconsistency. */
  datatype Startup = Genesis | From(height: nat) | Reexecute | Inconsistent

  /** initLastAccepted with extractLatestOutputBlock. */
  method InitLastAccepted(disk: Disk) returns (r: Startup)
    ensures r == StartupOf(disk)
  {
    if disk.index.None? {
      return Genesis;
    }
    var lastAcceptedHeight := disk.index.value;
    if lastAcceptedHeight == 0 {
      return From(0);
    }
    if disk.state.None? {
      return Inconsistent;
    }
    var stateHeight := disk.state.value;
    if lastAcceptedHeight != stateHeight && lastAcceptedHeight != stateHeight + 1 {
      return Inconsistent;
    }
    if lastAcceptedHeight == stateHeight {
      if disk.results != Some(stateHeight) {
        return Inconsistent;
      }
      return From(stateHeight);
    }
    r := Reexecute;
  }

  function StartupOf(disk: Disk): Startup {
    if disk.index.None? then Genesis
    else if disk.index.value == 0 then From(0)
    else if disk.state.None? then Inconsistent
    else if disk.index.value == disk.state.value then
      if disk.results == disk.state then From(disk.state.value) else Inconsistent
    else if disk.index.value == disk.state.value + 1 then Reexecute
    else Inconsistent
  }

  /** What a start finds, from the rows in plain terms. */
  lemma StartupAnswers(disk: Disk)
    ensures StartupOf(disk) == Genesis <==> disk.index == None
    ensures forall h: nat :: StartupOf(disk) == From(h)
                        <==> disk.index == Some(h) && (h == 0 || (disk.state == Some(h) && disk.results == Some(h)))
    ensures StartupOf(disk) == Reexecute
            <==> disk.index.Some? && disk.index.value > 0 && disk.state == Some(disk.index.value - 1)
  {
  }

  // ---- Steps ---------------------------------------------------------------------------------

  /** The steps of a node: creating genesis writes the state and then the index; a start succeeds from
      consistent heights; Accept writes the index and then queues; the accepter takes a block, writes
      its results, commits its state, and finishes; and the process can stop anywhere. */
  datatype Step = CommitGenesis | IndexGenesis | Start | Index | Enqueue | Dequeue | WriteResults | CommitState | Finish | Stop

  predicate May(n: Node, step: Step) {
    match step
    case CommitGenesis => n.Stopped? && n.disk.index.None?
    case IndexGenesis => n.Stopped? && n.disk.index.None? && n.disk.state == Some(0)
    case Start => n.Stopped? && StartupOf(n.disk).From?
    case Index => n.Running? && n.disk.index.Some? && n.process.pending.None?
    case Enqueue => n.Running? && n.process.pending.Some? && |n.process.queue| < ACCEPTED_QUEUE_SIZE
    case Dequeue => n.Running? && n.process.accepter.Waiting? && n.process.queue != []
    case WriteResults => n.Running? && n.process.accepter.Holding?
    case CommitState => n.Running? && n.process.accepter.Written?
    case Finish => n.Running? && n.process.accepter.Committed?
    case Stop => true
  }

  function Do(n: Node, step: Step): Node
    requires May(n, step)
  {
    match step
    case CommitGenesis => Stopped(n.disk.(state := Some(0)))
    case IndexGenesis => Stopped(n.disk.(index := Some(0)))
    case Start => Running(n.disk, Fresh)
    case Index =>
      var h := n.disk.index.value + 1;
      Running(n.disk.(index := Some(h)), n.process.(pending := Some(h)))
    case Enqueue =>
      Running(n.disk, n.process.(queue := n.process.queue + [n.process.pending.value], pending := None))
    case Dequeue =>
      Running(n.disk, n.process.(queue := n.process.queue[1..], accepter := Holding(n.process.queue[0])))
    case WriteResults =>
      Running(n.disk.(results := Some(n.process.accepter.h)), n.process.(accepter := Written(n.process.accepter.h)))
    case CommitState =>
      Running(n.disk.(state := Some(n.process.accepter.h)), n.process.(accepter := Committed(n.process.accepter.h)))
    case Finish => Running(n.disk, n.process.(accepter := Waiting))
    case Stop => Stopped(n.disk)
  }

  // ---- What every reachable state satisfies --------------------------------------------------

  function HeightOf(row: Option<nat>): nat {
    match row case None => 0 case Some(h) => h
  }

  /** The state is at most one block behind the results, and the index at most a full queue, the block in
      the accepter's hand and the one being queued ahead of the state. A missing row counts as genesis. */
  ghost predicate Bounded(d: Disk) {
    var index, results, state := HeightOf(d.index), HeightOf(d.results), HeightOf(d.state);
    && state <= results <= state + 1
    && results <= index <= state + 18
    && (d.index.Some? ==> d.state.Some?)
  }

  /** The last height that the accepter has taken off the queue. */
  function Taken(state: nat, accepter: Accepter): nat {
    match accepter
    case Waiting => state
    case _ => accepter.h
  }

  /** The accepter's block, the queue and the block being queued are the consecutive heights between the
      state and the index. */
  ghost predicate InLine(d: Disk, p: Process) {
    var state := HeightOf(d.state);
    var taken := Taken(state, p.accepter);
    && d.index.Some? && d.state.Some?
    && |p.queue| <= ACCEPTED_QUEUE_SIZE
    && (forall i :: 0 <= i < |p.queue| ==> p.queue[i] == taken + 1 + i)
    && (if p.pending.Some? then p.pending == d.index && d.index.value == taken + |p.queue| + 1
        else d.index.value == taken + |p.queue|)
    && (match p.accepter
        case Waiting => HeightOf(d.results) == state
        case Holding(h) => h == state + 1 && HeightOf(d.results) == state
        case Written(h) => h == state + 1 && HeightOf(d.results) == h
        case Committed(h) => h == state && HeightOf(d.results) == h)
  }

  ghost predicate Inv(n: Node) {
    Bounded(n.disk) && (n.Running? ==> InLine(n.disk, n.process))
  }

  lemma StepKeeps(n: Node, step: Step)
    requires Inv(n) && May(n, step)
    ensures Inv(Do(n, step))
  {
    if step.Dequeue? {
      var q := n.process.queue;
      assert q[0] == Taken(HeightOf(n.disk.state), Waiting) + 1;
    }
  }

  ghost predicate Run(n: Node, steps: seq<Step>, end: Node)
    decreases |steps|
  {
    if steps == [] then end == n else May(n, steps[0]) && Run(Do(n, steps[0]), steps[1..], end)
  }

  lemma {:induction false} RunKeeps(n: Node, steps: seq<Step>, end: Node)
    requires Inv(n) && Run(n, steps, end)
    ensures Inv(end)
    decreases |steps|
  {
    if steps != [] {
      StepKeeps(n, steps[0]);
      RunKeeps(Do(n, steps[0]), steps[1..], end);
    }
  }

  /** From an empty disk, however the process is stopped and started again. */
  lemma AlwaysBounded(steps: seq<Step>, end: Node)
    requires Run(Stopped(Empty), steps, end)
    ensures Bounded(end.disk)
  {
    RunKeeps(Stopped(Empty), steps, end);
  }

  /** Equal index and state heights above genesis imply a matching results row: the process starts again
      exactly when they are equal, and it never finds the results missing or of another height. */
  lemma StartsWhenEqual(steps: seq<Step>, end: Node)
    requires Run(Stopped(Empty), steps, end) && end.disk.index.Some? && end.disk.index.value > 0
    ensures StartupOf(end.disk) == From(end.disk.index.value) <==> end.disk.index == end.disk.state
    ensures end.disk.index == end.disk.state ==> end.disk.results == end.disk.state
    ensures StartupOf(end.disk) == Reexecute <==> HeightOf(end.disk.index) == HeightOf(end.disk.state) + 1
  {
    RunKeeps(Stopped(Empty), steps, end);
  }

  /** The bounds are tight: a run from an empty disk puts the index eighteen blocks ahead of the state. */
  lemma BoundIsReached() returns (steps: seq<Step>, end: Node)
    ensures Run(Stopped(Empty), steps, end) && end.disk.index == Some(18) && end.disk.state == Some(0)
  {
    end := Running(Disk(Some(0), None, Some(0)), Fresh);
    steps := [CommitGenesis, IndexGenesis, Start];
    assert Run(end, [], end);
    assert Run(Stopped(Disk(Some(0), None, Some(0))), [Start], end);
    assert Run(Stopped(Disk(None, None, Some(0))), [IndexGenesis, Start], end);
    steps, end := QueueBlocks(steps, end, 1);
    steps, end := OneStep(steps, end, Dequeue);
    steps, end := QueueBlocks(steps, end, 16);
    steps, end := OneStep(steps, end, Index);
  }

  lemma OneStep(before: seq<Step>, from: Node, step: Step) returns (steps: seq<Step>, end: Node)
    requires Run(Stopped(Empty), before, from) && May(from, step)
    ensures Run(Stopped(Empty), steps, end) && end == Do(from, step)
  {
    RunMore(Stopped(Empty), before, from, step);
    steps, end := before + [step], Do(from, step);
  }

  /** Indexing and queueing some blocks while the accepter does nothing. */
  lemma {:induction false} QueueBlocks(before: seq<Step>, from: Node, count: nat) returns (steps: seq<Step>, end: Node)
    requires Run(Stopped(Empty), before, from)
    requires from.Running? && from.disk.index.Some? && from.process.pending.None? && |from.process.queue| + count <= 16
    ensures Run(Stopped(Empty), steps, end) && end.Running? && end.process.pending.None?
    ensures end.disk == from.disk.(index := Some(from.disk.index.value + count))
    ensures |end.process.queue| == |from.process.queue| + count && end.process.accepter == from.process.accepter
    decreases count
  {
    steps, end := before, from;
    if count > 0 {
      steps, end := OneStep(steps, end, Index);
      steps, end := OneStep(steps, end, Enqueue);
      steps, end := QueueBlocks(steps, end, count - 1);
    }
  }

  // ---- Clean shutdown ------------------------------------------------------------------------

  /** Closing the queue and waiting: the accepter goes through what is left of it and stops. */
  method Shutdown(n: Node) returns (end: Node, steps: seq<Step>)
    requires Inv(n) && n.Running? && n.process.pending.None?
    ensures Run(n, steps, end)
    ensures end.Running? && end.disk.index == n.disk.index
    ensures end.disk.index == end.disk.state
    ensures n.disk.index.value > 0 ==> StartupOf(end.disk) == From(n.disk.index.value)
  {
    end, steps := n, [];
    while end.process.accepter != Waiting || end.process.queue != []
      invariant Inv(end) && end.Running? && end.process.pending.None?
      invariant end.disk.index == n.disk.index
      invariant Run(n, steps, end)
      decreases |end.process.queue|, Left(end.process.accepter)
    {
      var step := match end.process.accepter
        case Waiting => Dequeue
        case Holding(_) => WriteResults
        case Written(_) => CommitState
        case Committed(_) => Finish;
      StepKeeps(end, step);
      RunMore(n, steps, end, step);
      end, steps := Do(end, step), steps + [step];
    }
  }

  function Left(accepter: Accepter): nat {
    match accepter case Waiting => 0 case Committed(_) => 1 case Written(_) => 2 case Holding(_) => 3
  }

  lemma {:induction false} RunMore(n: Node, steps: seq<Step>, end: Node, step: Step)
    requires Run(n, steps, end) && May(end, step)
    ensures Run(n, steps + [step], Do(end, step))
    decreases |steps|
  {
    if steps == [] {
      assert steps + [step] == [step];
      assert Run(Do(n, step), [], Do(end, step));
    } else {
      assert (steps + [step])[0] == steps[0] && (steps + [step])[1..] == steps[1..] + [step];
      RunMore(Do(n, steps[0]), steps[1..], end, step);
    }
  }
}
