/** Runs of the consensus VM: any interleaving of the engine, the accepter, state sync and restarts.
    Every state of every run satisfies the invariant, and the invariant says what follows it here. */
module SnowRuns {
  import opened Bytes
  import opened SnowChain
  import opened SnowState
  import opened SnowInvariant
  import opened SnowSteps
  import opened SnowSync

  /** One atomic step. `b` in ParseStep, BuildStep, StartSync, FinishSync and Restart names the block
      that the step allocates. */
  datatype Step<Ref> =
    | ParseStep(id: BlockId, b: Ref, evicted: set<BlockId>)
    | BuildStep(output: Output, b: Ref, evicted: set<BlockId>)
    | VerifyStep(b: Ref, provided: Option<nat>)
    | AcceptStep(b: Ref, after: Index)
    | QueueStep
    | RemoveStep
    | SetStep
    | DequeueStep
    | ProcessStep
    | ProcessedStep
    | RejectStep(b: Ref)
    | PreferStep(id: BlockId)
    | StartSync(b: Ref, after: Index)
    | FinishSync(start: Processed, order: seq<BlockId>, b: Ref)
    | Restart(limit: nat, known: Option<Processed>, b: Ref)

  /** The steps that can be taken: the engine keeps its contract, the queue has room, and the calls
      whose failure ends the process succeed. A process can stop anywhere, keeping only its index. */
  ghost predicate May<Ref>(w: World<Ref>, s: State<Ref>, step: Step<Ref>) {
    match step
    case ParseStep(id, b, _) => b !in s.live && w.id(b) == id
    case BuildStep(output, b, _) => MayBuild(w, s, output, b)
    case VerifyStep(b, _) => MayVerify(w, s, b)
    case AcceptStep(b, after) => MayAccept(w, s, b, after)
    case QueueStep => s.engine.Indexed? && |s.queue| < ACCEPTED_QUEUE_SIZE
    case RemoveStep => s.engine.Queued?
    case SetStep => s.engine.Removed?
    case DequeueStep => s.accepter == Waiting && s.queue != []
    case ProcessStep => s.accepter.Holding? && Process(w, s, s.accepter.b).Some?
    case ProcessedStep => s.accepter.Stored?
    case RejectStep(b) => MayReject(w, s, b)
    case PreferStep(_) => true
    case StartSync(b, after) => MayStartSync(w, s, b, after)
    case FinishSync(start, order, b) =>
      && !s.ready && MayFinishSync(w, s, start, order, b) && FinishStateSync(w, s, start, order, b).Some?
    case Restart(limit, known, b) =>
      && IndexOk(w.chain, s.index, s.past.accepted) && MayBoot(w, s.index, known, b)
      && Boot(w, s.index, limit, s.past.accepted, known, b).Some?
  }

  ghost function Do<Ref>(w: World<Ref>, s: State<Ref>, step: Step<Ref>): State<Ref>
    requires May(w, s, step)
  {
    match step
    case ParseStep(id, b, evicted) => ParseBlock(w, s, id, b, evicted)
    case BuildStep(output, b, evicted) => BuildBlock(s, output, b, evicted)
    case VerifyStep(b, provided) => VerifyBlock(w, s, b, provided).1
    case AcceptStep(b, after) => AcceptIndex(w, s, b, after)
    case QueueStep => AcceptQueue(s, s.engine.b)
    case RemoveStep => AcceptRemove(w, s, s.engine.b)
    case SetStep => AcceptSet(w, s, s.engine.b)
    case DequeueStep => Dequeue(s)
    case ProcessStep => Process(w, s, s.accepter.b).value
    case ProcessedStep => SetProcessed(s, s.accepter.b)
    case RejectStep(b) => Reject(w, s, b)
    case PreferStep(id) => s.(preferred := id)
    case StartSync(b, after) => StartStateSync(w, s, b, after)
    case FinishSync(start, order, b) => FinishStateSync(w, s, start, order, b).value
    case Restart(limit, known, b) => Boot(w, s.index, limit, s.past.accepted, known, b).value
  }

  ghost predicate Run<Ref>(w: World<Ref>, s: State<Ref>, steps: seq<Step<Ref>>)
    decreases |steps|
  {
    steps != [] ==> May(w, s, steps[0]) && Run(w, Do(w, s, steps[0]), steps[1..])
  }

  ghost function End<Ref>(w: World<Ref>, s: State<Ref>, steps: seq<Step<Ref>>): State<Ref>
    requires Run(w, s, steps)
    decreases |steps|
  {
    if steps == [] then s else End(w, Do(w, s, steps[0]), steps[1..])
  }

  lemma StepKeeps<Ref>(w: World<Ref>, s: State<Ref>, step: Step<Ref>)
    requires Sound(w.chain) && Inv(w, s) && May(w, s, step)
    ensures Inv(w, Do(w, s, step))
  {
    match step
    case ParseStep(id, b, evicted) => ParseKeeps(w, s, id, b, evicted);
    case BuildStep(output, b, evicted) => BuildKeeps(w, s, output, b, evicted);
    case VerifyStep(b, provided) => VerifyKeeps(w, s, b, provided);
    case AcceptStep(b, after) => AcceptIndexKeeps(w, s, b, after);
    case QueueStep => AcceptQueueKeeps(w, s, s.engine.b);
    case RemoveStep => AcceptRemoveKeeps(w, s, s.engine.b);
    case SetStep => AcceptSetKeeps(w, s, s.engine.b);
    case DequeueStep => DequeueKeeps(w, s);
    case ProcessStep => ProcessKeeps(w, s, s.accepter.b);
    case ProcessedStep => SetProcessedKeeps(w, s, s.accepter.b);
    case RejectStep(b) => RejectKeeps(w, s, b);
    case PreferStep(id) => PreferKeeps(w, s, id);
    case StartSync(b, after) => StartSyncKeeps(w, s, b, after);
    case FinishSync(start, order, b) => FinishSyncKeeps(w, s, start, order, b);
    case Restart(limit, known, b) => BootKeeps(w, s.index, limit, s.past.accepted, known, b);
  }

  /** Every state of every run satisfies the invariant. */
  lemma {:induction false} RunKeeps<Ref>(w: World<Ref>, s: State<Ref>, steps: seq<Step<Ref>>)
    requires Sound(w.chain) && Inv(w, s) && Run(w, s, steps)
    ensures Inv(w, End(w, s, steps))
    decreases |steps|
  {
    if steps != [] {
      StepKeeps(w, s, steps[0]);
      RunKeeps(w, Do(w, s, steps[0]), steps[1..]);
    }
  }

  /** In particular from any start of a process on its index, ready or about to state-sync. */
  lemma BootRunKeeps<Ref>(
    w: World<Ref>, index: Index, limit: nat, accepted: map<nat, BlockId>, start: Option<Processed>, b: Ref,
    steps: seq<Step<Ref>>)
    requires Sound(w.chain) && IndexOk(w.chain, index, accepted) && MayBoot(w, index, start, b)
    requires Boot(w, index, limit, accepted, start, b).Some?
    requires Run(w, Boot(w, index, limit, accepted, start, b).value, steps)
    ensures Inv(w, End(w, Boot(w, index, limit, accepted, start, b).value, steps))
  {
    BootKeeps(w, index, limit, accepted, start, b);
    RunKeeps(w, Boot(w, index, limit, accepted, start, b).value, steps);
  }

  // ---- What a verified and an accepted block carries -----------------------------------------

  lemma CarriesFolds<Ref>(w: World<Ref>, s: State<Ref>, b: Ref)
    requires Inv(w, s)
    ensures b in s.outputs ==> OutputOf(w.chain, w.id(b)) == Some(s.outputs[b])
    ensures b in s.accepteds && 18 <= s.byId.limit ==>
              AcceptedOf(w.chain, w.id(b)) == Some(s.accepteds[b])
  {
    assert Outputs in Kept(w, s) && Accepteds in Kept(w, s);
  }

  /** Verified directly, built here, re-processed after a restart or re-verified after state sync: a
      block always carries the fold of VerifyBlock along its ancestors; with a large enough cache an
      accepted one carries the fold of AcceptBlock. */
  lemma RunCarriesFolds<Ref>(w: World<Ref>, s: State<Ref>, steps: seq<Step<Ref>>, b: Ref)
    requires Sound(w.chain) && Inv(w, s) && Run(w, s, steps)
    ensures var t := End(w, s, steps);
            && (b in t.outputs ==> OutputOf(w.chain, w.id(b)) == Some(t.outputs[b]))
            && (b in t.accepteds && 18 <= t.byId.limit ==>
                  AcceptedOf(w.chain, w.id(b)) == Some(t.accepteds[b]))
  {
    RunKeeps(w, s, steps);
    CarriesFolds(w, End(w, s, steps), b);
  }

  /** GetPreferredBlock: the output of the preferred block, or an error. */
  function PreferredOutput<Ref>(w: World<Ref>, s: State<Ref>): Option<Output> {
    FoundOutput(w, s, s.preferred)
  }

  /** GetLastAccepted: the accepted form of the last processed block, or an error. */
  function LastAcceptedForm<Ref>(s: State<Ref>): Option<Accepted> {
    if s.lastProcessed.Some? && s.lastProcessed.value in s.accepteds then Some(s.accepteds[s.lastProcessed.value])
    else None
  }

  lemma ConsensusIndexServesFolds<Ref>(w: World<Ref>, s: State<Ref>)
    requires Sound(w.chain) && Inv(w, s)
    ensures PreferredOutput(w, s).Some? ==> PreferredOutput(w, s) == OutputOf(w.chain, s.preferred)
    ensures s.ready && 18 <= s.byId.limit ==>
              && s.lastProcessed.Some?
              && LastAcceptedForm(s).Some?
              && LastAcceptedForm(s) == AcceptedOf(w.chain, w.id(s.lastProcessed.value))
  {
    assert ProcessingNames in Kept(w, s) && AcceptedNames in Kept(w, s) && Outputs in Kept(w, s);
    FoundIsFold(w, s, s.preferred);
    if s.ready && 18 <= s.byId.limit {
      assert Pipeline in Kept(w, s) && Accepteds in Kept(w, s);
    }
  }

  // ---- The accepter --------------------------------------------------------------------------

  /** AcceptBlock has run once for each of the first blocks accepted since the VM became ready, one
      height after the other, each time with the accepted form of the parent; and it has run for all of
      them but the one in the accepter's hand and the at most sixteen in the queue. */
  lemma AcceptBlockInOrder<Ref>(w: World<Ref>, s: State<Ref>, k: nat)
    requires Sound(w.chain) && Inv(w, s) && s.ready && 18 <= s.byId.limit && k < |s.past.calls|
    ensures |s.past.calls| < |s.past.chain| <= |s.past.calls| + 18
    ensures s.past.calls[k].block == w.id(s.past.chain[k + 1])
    ensures w.chain.Height(s.past.calls[k].block) == w.Height(s.past.chain[0]) + k + 1
    ensures s.past.calls[k].parent.Some?
    ensures s.past.calls[k].parent == AcceptedOf(w.chain, w.chain.Parent(s.past.calls[k].block))
  {
    CallsFollowChain(w, s, k);
    assert Calls in Kept(w, s);
  }

  lemma CallsFollowChain<Ref>(w: World<Ref>, s: State<Ref>, k: nat)
    requires Inv(w, s) && s.ready && k < |s.past.calls|
    ensures |s.past.calls| < |s.past.chain| <= |s.past.calls| + 18
    ensures s.past.calls[k].block == w.id(s.past.chain[k + 1])
    ensures w.Height(s.past.chain[k + 1]) == w.Height(s.past.chain[0]) + k + 1
    ensures w.Parent(s.past.chain[k + 1]) == w.id(s.past.chain[k])
  {
    assert Pipeline in Kept(w, s) && Chained in Kept(w, s);
    ChainHeights(w, s.past.chain, s.outputs, s.past.accepted, k + 1);
  }

  /** While the VM stays ready, the chain and the calls only grow: no block is accepted twice. */
  lemma SessionGrows<Ref>(w: World<Ref>, s: State<Ref>, step: Step<Ref>)
    requires s.ready && May(w, s, step) && !step.StartSync? && !step.Restart?
    ensures s.past.chain <= Do(w, s, step).past.chain
    ensures s.past.calls <= Do(w, s, step).past.calls
  {
    if !step.QueueStep? && !step.ProcessStep? {
      SessionStays(w, s, step);
    }
  }

  /** Only queueing a block and calling AcceptBlock add to the session. */
  lemma SessionStays<Ref>(w: World<Ref>, s: State<Ref>, step: Step<Ref>)
    requires s.ready && May(w, s, step) && !step.StartSync? && !step.Restart?
    requires !step.QueueStep? && !step.ProcessStep?
    ensures Do(w, s, step).past.chain == s.past.chain
    ensures Do(w, s, step).past.calls == s.past.calls
  {
    hide GetBlock, Executed, ParentAccepted;
  }

  /** Once Accept has returned and the accepter has drained the queue, the last accepted block is the
      last processed one, and AcceptBlock has run for every block of the chain but the first. */
  lemma DrainedIsProcessed<Ref>(w: World<Ref>, s: State<Ref>)
    requires Inv(w, s) && s.ready && s.engine == Idle && s.accepter == Waiting && s.queue == []
    ensures s.lastProcessed == Some(s.lastAccepted)
    ensures |s.past.chain| == |s.past.calls| + 1
  {
    assert Pipeline in Kept(w, s) && Front in Kept(w, s);
  }

  /** The last processed block is at most one block ahead of the last accepted one. */
  lemma ProcessedLeadsByOne<Ref>(w: World<Ref>, s: State<Ref>)
    requires Inv(w, s) && s.ready
    ensures s.lastProcessed.Some?
    ensures w.Height(s.lastProcessed.value) <= w.Height(s.lastAccepted) + 1
  {
    assert Pipeline in Kept(w, s) && Chained in Kept(w, s) && Front in Kept(w, s);
    var chain := s.past.chain;
    var n := if s.accepter.Stored? then |s.past.calls| - 1 else |s.past.calls|;
    ChainHeights(w, chain, s.outputs, s.past.accepted, n);
    ChainHeights(w, chain, s.outputs, s.past.accepted, |Settled(chain, s.engine)| - 1);
  }

  /** A cache of eighteen blocks always holds the accepter's parent, populated; a smaller one has lost
      it whenever the queue is full and the last block queued is settled, and AcceptBlock is then
      handed an empty parent. */
  lemma EighteenSuffice<Ref>(w: World<Ref>, s: State<Ref>, b: Ref)
    requires Inv(w, s) && s.accepter == Holding(b)
    ensures 18 <= s.byId.limit ==>
              GetBlock(w, s, w.Parent(b)).Found? && ParentAccepted(w, s, b).Some?
    ensures s.byId.limit < 18 && |s.queue| == 16 && s.engine == Idle ==>
              !GetBlock(w, s, w.Parent(b)).Found? && ParentAccepted(w, s, b) == None
  {
    InHand(w, s, b);
    if 18 <= s.byId.limit {
      ParentCached(w, s, b);
    } else if |s.queue| == 16 && s.engine == Idle {
      assert Pipeline in Kept(w, s);
      ParentEvicted(w, s, b);
    }
  }

  // ---- Health --------------------------------------------------------------------------------

  /** The processing blocks that are not verified. */
  ghost function Unverified<Ref>(s: State<Ref>): iset<BlockId> {
    iset id | id in s.processing && s.processing[id] !in s.outputs
  }

  /** Healthy means ready with every processing block verified. */
  lemma HealthyWhenVerified<Ref>(w: World<Ref>, s: State<Ref>)
    requires Inv(w, s)
    ensures Healthy(s) <==> s.ready && Unverified(s) == iset{}
  {
    if s.ready {
      assert Unresolved in Kept(w, s);
      if s.unresolved.Some? {
        assert forall id :: id in Unverified(s) <==> id in s.unresolved.value;
      }
    }
  }

  /** While the VM stays ready, only rejecting an unverified block resolves it, and none is added. */
  lemma OnlyRejectResolves<Ref>(w: World<Ref>, s: State<Ref>, step: Step<Ref>)
    requires Sound(w.chain) && Inv(w, s) && s.ready && May(w, s, step)
    requires !step.StartSync? && !step.Restart?
    ensures Do(w, s, step).ready
    ensures Unverified(Do(w, s, step)) ==
            if step.RejectStep? then Unverified(s) - iset{w.id(step.b)} else Unverified(s)
  {
    hide Kept, GetBlock, Executed, ParentAccepted, VerifyAll;
    UnverifiedAreOthers(w, s);
    if step.VerifyStep? || step.RemoveStep? || step.BuildStep? {
      StepLeavesUnverified(w, s, step);
    }
  }

  /** The block being accepted is verified, and blocks are filed under their own IDs. */
  lemma UnverifiedAreOthers<Ref>(w: World<Ref>, s: State<Ref>)
    requires Inv(w, s) && s.ready
    ensures s.engine != Idle ==> s.engine.b in s.outputs
    ensures NamesOk(w, s.live, s.processing) && s.outputs.Keys <= s.live
  {
    assert Flow in Kept(w, s) && ProcessingNames in Kept(w, s) && Live in Kept(w, s);
  }

  lemma StepLeavesUnverified<Ref>(w: World<Ref>, s: State<Ref>, step: Step<Ref>)
    requires Inv(w, s) && s.ready && May(w, s, step)
    requires step.VerifyStep? || step.RemoveStep? || step.BuildStep?
    ensures Unverified(Do(w, s, step)) == Unverified(s)
  {
    UnverifiedAreOthers(w, s);
    if step.RemoveStep? {
      assert Flow in Kept(w, s);
    }
  }

  // ---- Finishing state sync once -------------------------------------------------------------

  /** Only finishing state sync registers unresolved blocks, and only a restart forgets that it did. */
  lemma StepFinishes<Ref>(w: World<Ref>, s: State<Ref>, step: Step<Ref>)
    requires May(w, s, step) && !step.Restart?
    ensures Do(w, s, step).unresolved.Some? <==> s.unresolved.Some? || step.FinishSync?
    ensures step.FinishSync? ==> s.unresolved.None?
  {
    hide GetBlock, VerifyAll, ParentAccepted, Executed, Reprocessed;
  }

  /** In one process, the unresolved blocks are registered exactly when state sync has finished in it. */
  lemma {:induction false} FinishedInProcess<Ref>(w: World<Ref>, s: State<Ref>, steps: seq<Step<Ref>>)
    requires Run(w, s, steps) && forall step :: step in steps ==> !step.Restart?
    ensures End(w, s, steps).unresolved.Some? <==>
              s.unresolved.Some? || exists i :: 0 <= i < |steps| && steps[i].FinishSync?
    decreases |steps|
  {
    if steps != [] {
      var rest := steps[1..];
      assert steps[0] in steps;
      StepFinishes(w, s, steps[0]);
      FinishedInProcess(w, Do(w, s, steps[0]), rest);
      assert forall i :: 0 <= i < |rest| ==> rest[i] == steps[i + 1];
      if i :| 0 <= i < |steps| && steps[i].FinishSync? {
        if i > 0 {
          assert rest[i - 1].FinishSync?;
        }
      }
    }
  }

  /** Between two times that state sync finishes, the process restarts. */
  lemma {:induction false} FinishesOncePerProcess<Ref>(w: World<Ref>, s: State<Ref>, steps: seq<Step<Ref>>, j: nat)
    requires Run(w, s, steps) && j < |steps| && steps[j].FinishSync?
    ensures s.unresolved.Some? ==> exists k :: 0 <= k < j && steps[k].Restart?
    ensures forall i :: 0 <= i < j && steps[i].FinishSync? ==> exists k :: i < k < j && steps[k].Restart?
    decreases |steps|
  {
    var next, rest := Do(w, s, steps[0]), steps[1..];
    if !steps[0].Restart? {
      StepFinishes(w, s, steps[0]);
    }
    if j > 0 {
      FinishesOncePerProcess(w, next, rest, j - 1);
      assert forall k :: 0 <= k < |rest| ==> rest[k] == steps[k + 1];
      if next.unresolved.Some? {
        var k :| 0 <= k < j - 1 && rest[k].Restart?;
        assert steps[k + 1].Restart?;
      }
      forall i | 0 <= i < j && steps[i].FinishSync? ensures exists k :: i < k < j && steps[k].Restart? {
        if i > 0 {
          assert rest[i - 1].FinishSync?;
          var k :| i - 1 < k < j - 1 && rest[k].Restart?;
          assert steps[k + 1].Restart?;
        }
      }
    }
  }

  // ---- Looking blocks up ---------------------------------------------------------------------

  /** At every point of Accept, a block that entered processing and was not rejected can be retrieved
      by ID, unless it was accepted and both the index and the cache have dropped it since. */
  lemma StaysRetrievable<Ref>(w: World<Ref>, s: State<Ref>, id: BlockId)
    requires Inv(w, s) && id in s.past.entered && id !in s.past.rejected
    ensures GetBlock(w, s, id) != Missing
            || (Decided(w.chain, s.past.accepted, id) && !s.index.Holds(w.chain, id) && id !in s.byId.entries)
  {
    assert Entered in Kept(w, s);
  }

  /** A block in the middle of being accepted, and right after, is there. */
  lemma AcceptNeverHides<Ref>(w: World<Ref>, s: State<Ref>)
    requires Inv(w, s)
    ensures s.engine.Indexed? || s.engine.Queued? ==> GetBlock(w, s, w.id(s.engine.b)) == Found(s.engine.b)
    ensures s.engine.Removed? ==> GetBlock(w, s, w.id(s.engine.b)) != Missing
    ensures s.engine == Idle ==> GetBlock(w, s, w.id(s.lastAccepted)) == Found(s.lastAccepted)
  {
    hide AllocOk, NamesOk, OutputsOk;
    assert Flow in Kept(w, s) && Tip in Kept(w, s) && Caches in Kept(w, s);
    if s.engine == Idle {
      LastNotProcessing(w, s);
    }
  }

  /** GetBlockByHeight is a lookup in the plain map of accepted blocks, for the heights still on disk
      or cached: it answers for nothing else, never with another block, and never without finding it. */
  lemma HeightLookupRefines<Ref>(w: World<Ref>, s: State<Ref>, height: nat)
    requires Inv(w, s)
    ensures GetBlockByHeight(w, s, height).Some? <==>
              height in s.index.blocks || height in s.byHeight.entries
    ensures GetBlockByHeight(w, s, height).Some? ==>
              var (id, found) := GetBlockByHeight(w, s, height).value;
              && height in s.past.accepted && s.past.accepted[height] == id
              && found != Missing && (found.Found? ==> w.id(found.b) == id)
  {
    LastIsCached(w, s);
    if w.Height(s.lastAccepted) != height && height in s.byHeight.entries {
      CachedByHeight(w, s, height);
    }
    assert ProcessingNames in Kept(w, s) && AcceptedNames in Kept(w, s);
    assert Tip in Kept(w, s);
  }

  /** The last accepted block is in both caches, and is the block accepted at its height. */
  lemma LastIsCached<Ref>(w: World<Ref>, s: State<Ref>)
    requires Inv(w, s)
    ensures w.id(s.lastAccepted) in s.byId.entries && w.Height(s.lastAccepted) in s.byHeight.entries
    ensures Decided(w.chain, s.past.accepted, w.id(s.lastAccepted))
  {
    assert Caches in Kept(w, s);
  }

  /** Whatever is cached by height is cached by ID, and is the block accepted at that height. */
  lemma CachedByHeight<Ref>(w: World<Ref>, s: State<Ref>, height: nat)
    requires Inv(w, s) && height in s.byHeight.entries
    ensures s.byHeight.entries[height] in s.byId.entries
    ensures height in s.past.accepted && s.past.accepted[height] == s.byHeight.entries[height]
  {
    assert Caches in Kept(w, s);
    var i :| 0 <= i < |s.byHeight.order| && s.byHeight.order[i] == height;
    assert s.byId.order[i] in s.byId.entries;
  }

  // ---- Restart -------------------------------------------------------------------------------

  lemma BootDelivers<Ref>(w: World<Ref>, index: Index, start: Processed, b: Ref)
    requires Sound(w.chain) && MayBoot(w, index, Some(start), b)
    requires Reprocessed(w.chain, index, w.id(b), start).0.Some?
    ensures var sent := Reprocessed(w.chain, index, w.id(b), start).1;
            && Delivers(w.chain, index, w.chain.Height(start.output.id), sent)
            && |sent| == index.last - w.chain.Height(start.output.id)
  {
    ReprocessIsFold(w.chain, index, index.last, start, w.chain.Height(start.output.id), []);
  }

  /** Starting from an output block no higher than the last notified height, every height above that up
      to the indexed tip is notified, in order, each with the block's own accepted form. */
  lemma RestartRedelivers<Ref>(
    w: World<Ref>, index: Index, start: Processed, b: Ref, notified: nat, height: nat)
    requires Sound(w.chain) && MayBoot(w, index, Some(start), b)
    requires Reprocessed(w.chain, index, w.id(b), start).0.Some?
    requires w.chain.Height(start.output.id) <= notified < height <= index.last
    ensures var sent := Reprocessed(w.chain, index, w.id(b), start).1;
            var from := w.chain.Height(start.output.id);
            && |sent| == index.last - from
            && height in index.blocks
            && AcceptedOf(w.chain, index.blocks[height]) == Some(sent[height - from - 1])
  {
    BootDelivers(w, index, start, b);
    var sent, from := Reprocessed(w.chain, index, w.id(b), start).1, w.chain.Height(start.output.id);
    var form := sent[height - from - 1];
    assert from + 1 + (height - from - 1) == height;
  }

  /** The block the VM is ready on after a restart is the indexed tip, with its input, output and
      accepted forms under one ID; it is both the last accepted and the last processed block. */
  lemma RestartIsConsistent<Ref>(
    w: World<Ref>, index: Index, limit: nat, accepted: map<nat, BlockId>, start: Processed, b: Ref)
    requires Sound(w.chain) && MayBoot(w, index, Some(start), b)
    requires Boot(w, index, limit, accepted, Some(start), b).Some?
    ensures var t := Boot(w, index, limit, accepted, Some(start), b).value;
            && t.ready && t.lastAccepted == b && t.lastProcessed == Some(b) && b in t.outputs && b in t.accepteds
            && t.outputs[b].id == t.accepteds[b].id == w.id(b) == index.blocks[index.last]
  {
    BootForms(w, index, start, b);
  }
}
