/** The steps the consensus engine, the accepter and state sync may take, and the proof that each of
    them keeps the invariant. */
module SnowSteps {
  import opened Bytes
  import opened SnowChain
  import opened SnowState
  import opened SnowInvariant

  // ---- The contract of the environment -------------------------------------------------------

  /** A block is built while ready, on the preferred block, which has been verified; its output is the
      one that verifying it would give. */
  ghost predicate MayBuild<Ref>(w: World<Ref>, s: State<Ref>, output: Output, b: Ref) {
    && s.ready && b !in s.live && w.id(b) == output.id
    && w.chain.Parent(output.id) == s.preferred
    && FoundOutput(w, s, s.preferred).Some?
    && w.chain.verify(FoundOutput(w, s, s.preferred).value, output.id) == Some(output)
  }

  /** Verify is called on an undecided block that is not processing yet and whose parent is processing
      or the last accepted one. */
  ghost predicate MayVerify<Ref>(w: World<Ref>, s: State<Ref>, b: Ref) {
    && s.engine == Idle && b in s.live
    && w.id(b) !in s.processing && w.id(b) !in s.past.rejected
    && w.Height(s.lastAccepted) < w.Height(b)
    && (w.Parent(b) == w.id(s.lastAccepted) || w.Parent(b) in s.processing)
  }

  /** Accept is called on a processing child of the last accepted block. */
  ghost predicate MayAccept<Ref>(w: World<Ref>, s: State<Ref>, b: Ref, after: Index) {
    && s.engine == Idle && !Refused(s, b)
    && w.id(b) in s.processing && s.processing[w.id(b)] == b
    && w.Parent(b) == w.id(s.lastAccepted) && w.Height(b) == w.Height(s.lastAccepted) + 1
    && Records(w.chain, s.index, w.id(b), after)
  }

  /** Reject is called on a processing block, not in the middle of an Accept. */
  ghost predicate MayReject<Ref>(w: World<Ref>, s: State<Ref>, b: Ref) {
    s.engine == Idle && w.id(b) in s.processing && s.processing[w.id(b)] == b
  }

  /** State sync starts before anything is in flight, on a block of the accepted chain. */
  ghost predicate MayStartSync<Ref>(w: World<Ref>, s: State<Ref>, b: Ref, after: Index) {
    && s.engine == Idle && s.accepter == Waiting && s.queue == [] && s.processing == map[]
    && b !in s.live && w.id(b) !in s.past.rejected
    && (forall r :: r in s.outputs ==> w.Height(r) <= w.Height(s.lastAccepted))
    && w.Height(s.lastAccepted) <= w.Height(b)
    && (w.Height(b) == w.Height(s.lastAccepted) ==> w.id(b) == w.id(s.lastAccepted))
    && (w.Height(b) == w.Height(s.lastAccepted) + 1 ==> w.Parent(b) == w.id(s.lastAccepted))
    && Records(w.chain, s.index, w.id(b), after)
  }

  ghost predicate Sorted(c: Chain, order: seq<BlockId>) {
    forall i, j :: 0 <= i < j < |order| ==> c.Height(order[i]) <= c.Height(order[j])
  }

  /** State sync finishes with both forms of one accepted block; the processing blocks are taken in
      height order. */
  ghost predicate MayFinishSync<Ref>(w: World<Ref>, s: State<Ref>, start: Processed, order: seq<BlockId>, b: Ref) {
    && s.engine == Idle
    && Linked(w.chain, s.index) && Consistent(w.chain, start) && Anchored(w.chain, s.index, start.output.id)
    && Sorted(w.chain, order) && Distinct(order)
    && (forall id :: id in order <==> id in s.processing)
    && b !in s.live && w.id(b) == w.id(s.lastAccepted)
  }

  /** A process starts on the indexed tip, with both forms of one accepted block or with none. */
  ghost predicate MayBoot<Ref>(w: World<Ref>, index: Index, start: Option<Processed>, b: Ref) {
    && Linked(w.chain, index)
    && index.last in index.blocks && w.id(b) == index.blocks[index.last]
    && (start.Some? ==> Consistent(w.chain, start.value) && Anchored(w.chain, index, start.value.output.id))
  }

  // ---- Parsing, building, verifying ----------------------------------------------------------

  lemma AllocKeeps<Ref>(w: World<Ref>, s: State<Ref>, b: Ref)
    requires Inv(w, s)
    ensures Inv(w, s.(live := s.live + {b}))
  {
    var t := s.(live := s.live + {b});
    forall clause: Clause ensures clause in Kept(w, t) {
      assert clause in Kept(w, s);
    }
  }

  lemma CacheKeeps<Ref>(w: World<Ref>, s: State<Ref>, id: BlockId, b: Ref, evicted: set<BlockId>)
    requires Inv(w, s) && w.id(b) == id
    ensures Inv(w, Cache(s, id, b, evicted))
  {
    AllocKeeps(w, s, b);
    var t := Cache(s, id, b, evicted);
    forall clause: Clause ensures clause in Kept(w, t) {
      assert clause in Kept(w, s.(live := s.live + {b}));
    }
  }

  lemma ParseKeeps<Ref>(w: World<Ref>, s: State<Ref>, id: BlockId, b: Ref, evicted: set<BlockId>)
    requires Inv(w, s) && b !in s.live && w.id(b) == id
    ensures Inv(w, ParseBlock(w, s, id, b, evicted))
  {
    AllocKeeps(w, s, b);
    CacheKeeps(w, s, id, b, evicted);
  }

  /** A block found by ID and verified carries the output of that ID. */
  lemma FoundIsFold<Ref>(w: World<Ref>, s: State<Ref>, id: BlockId)
    requires NamesOk(w, s.live, s.processing) && NamesOk(w, s.live, s.byId.entries) && OutputsOk(w, s.outputs)
    ensures FoundOutput(w, s, id).Some? ==> FoundOutput(w, s, id) == OutputOf(w.chain, id)
  {
  }

  /** Executing a block on its parent's output gives the fold along its ancestors. */
  lemma ExecutedIsFold<Ref>(w: World<Ref>, s: State<Ref>, b: Ref)
    requires Sound(w.chain)
    requires NamesOk(w, s.live, s.processing) && NamesOk(w, s.live, s.byId.entries) && OutputsOk(w, s.outputs)
    ensures Executed(w, s, b).Some? ==> Executed(w, s, b) == OutputOf(w.chain, w.id(b))
  {
    FoundIsFold(w, s, w.Parent(b));
    if Executed(w, s, b).Some? {
      VerifyExtends(w.chain, w.id(b));
    }
  }

  /** A block that is not processing can be given its output while the VM is ready. */
  lemma OutputKeeps<Ref>(w: World<Ref>, s: State<Ref>, b: Ref, output: Output)
    requires Inv(w, s) && s.ready && b in s.live && (w.id(b) in s.processing ==> s.processing[w.id(b)] != b)
    requires OutputOf(w.chain, w.id(b)) == Some(output)
    ensures Inv(w, s.(outputs := s.outputs[b := output]))
  {
    var t := s.(outputs := s.outputs[b := output]);
    assert ProcessingNames in Kept(w, s);
    forall clause: Clause ensures clause in Kept(w, t) {
      assert clause in Kept(w, s);
    }
  }

  lemma BuildKeeps<Ref>(w: World<Ref>, s: State<Ref>, output: Output, b: Ref, evicted: set<BlockId>)
    requires Sound(w.chain) && Inv(w, s) && MayBuild(w, s, output, b)
    ensures Inv(w, BuildBlock(s, output, b, evicted))
  {
    assert ProcessingNames in Kept(w, s) && AcceptedNames in Kept(w, s) && Outputs in Kept(w, s);
    FoundIsFold(w, s, s.preferred);
    VerifyExtends(w.chain, output.id);
    var t := Cache(s, output.id, b, evicted);
    CacheKeeps(w, s, output.id, b, evicted);
    OutputKeeps(w, t, b, output);
  }

  lemma TrackKeeps<Ref>(w: World<Ref>, s: State<Ref>, b: Ref)
    requires Inv(w, s) && MayVerify(w, s, b) && (s.ready ==> b in s.outputs)
    ensures Inv(w, Track(w, s, b))
  {
    var t := Track(w, s, b);
    assert Tip in Kept(w, s);
    forall clause: Clause ensures clause in Kept(w, t) {
      assert clause in Kept(w, s);
    }
  }

  /** The block that a child of this ID is verified on, while the engine keeps to its contract. */
  function ParentBlock<Ref>(w: World<Ref>, s: State<Ref>, b: Ref): Ref {
    if w.Parent(b) in s.processing then s.processing[w.Parent(b)] else s.lastAccepted
  }

  /** What the answer of verifying a block means. It is accepted exactly when the VM is not ready yet, or the
      engine passes the context that the block embeds and the block was built here or is valid on a
      verified parent. */
  lemma VerifyAnswers<Ref>(w: World<Ref>, s: State<Ref>, b: Ref, provided: Option<nat>)
    requires Sound(w.chain) && Inv(w, s) && MayVerify(w, s, b)
    ensures VerifyBlock(w, s, b, provided).0
            <==> || !s.ready
                 || (&& provided == w.chain.header(w.id(b)).context
                     && (|| b in s.outputs
                         || (ParentBlock(w, s, b) in s.outputs && OutputOf(w.chain, w.id(b)).Some?)))
  {
    assert ProcessingNames in Kept(w, s) && AcceptedNames in Kept(w, s) && Outputs in Kept(w, s);
    assert Caches in Kept(w, s) && Tip in Kept(w, s) && Disjoint in Kept(w, s);
    ParentIsFound(w, s, b);
    ExecutedIsFold(w, s, b);
  }

  lemma ParentIsFound<Ref>(w: World<Ref>, s: State<Ref>, b: Ref)
    requires Inv(w, s) && MayVerify(w, s, b)
    ensures GetBlock(w, s, w.Parent(b)) == Found(ParentBlock(w, s, b))
    ensures w.id(ParentBlock(w, s, b)) == w.Parent(b)
  {
    assert ProcessingNames in Kept(w, s) && Caches in Kept(w, s);
  }

  /** And what it leaves behind: a block that is accepted is processing, verified if the VM is ready, and
      nothing else changes; a refused one changes nothing. */
  lemma VerifyEffects<Ref>(w: World<Ref>, s: State<Ref>, b: Ref, provided: Option<nat>)
    requires Sound(w.chain) && Inv(w, s) && MayVerify(w, s, b)
    ensures var (ok, t) := VerifyBlock(w, s, b, provided);
            && (ok <==> w.id(b) in t.processing)
            && (!ok ==> t == s)
            && (ok ==>
                  && t.processing == s.processing[w.id(b) := b]
                  && t.past == s.past.(entered := s.past.entered + {w.id(b)})
                  && t == s.(outputs := t.outputs, processing := t.processing, past := t.past)
                  && (!s.ready ==> t.outputs == s.outputs)
                  && (s.ready ==> b in t.outputs && Some(t.outputs[b]) == OutputOf(w.chain, w.id(b))
                                  && t.outputs == s.outputs[b := t.outputs[b]]))
  {
    assert ProcessingNames in Kept(w, s) && AcceptedNames in Kept(w, s) && Outputs in Kept(w, s);
    ExecutedIsFold(w, s, b);
  }

  lemma VerifyKeeps<Ref>(w: World<Ref>, s: State<Ref>, b: Ref, provided: Option<nat>)
    requires Sound(w.chain) && Inv(w, s) && MayVerify(w, s, b)
    ensures Inv(w, VerifyBlock(w, s, b, provided).1)
  {
    if VerifyBlock(w, s, b, provided).0 {
      if s.ready && b !in s.outputs {
        assert ProcessingNames in Kept(w, s) && AcceptedNames in Kept(w, s) && Outputs in Kept(w, s);
        ExecutedIsFold(w, s, b);
        var output := Executed(w, s, b).value;
        OutputKeeps(w, s, b, output);
        TrackKeeps(w, s.(outputs := s.outputs[b := output]), b);
      } else {
        TrackKeeps(w, s, b);
      }
    }
  }

  // ---- Accepting and rejecting ---------------------------------------------------------------

  /** Recording a higher block that extends the last one keeps the index and the history in order. */
  lemma RecordsKeepsIndex(c: Chain, before: Index, accepted: map<nat, BlockId>, id: BlockId, after: Index)
    requires IndexOk(c, before, accepted) && Records(c, before, id, after)
    requires before.last <= c.Height(id)
    requires before.last == c.Height(id) ==> before.blocks[before.last] == id
    requires before.last + 1 == c.Height(id) ==> c.Parent(id) == before.blocks[before.last]
    ensures IndexOk(c, after, accepted[c.Height(id) := id])
  {
  }

  lemma TipAdvances<Ref>(
    w: World<Ref>, index: Index, accepted: map<nat, BlockId>, base: nat, lastAccepted: Ref, b: Ref, after: Index)
    requires TipOk(w, index, accepted, base, lastAccepted, Idle)
    requires w.Parent(b) == w.id(lastAccepted) && w.Height(b) == w.Height(lastAccepted) + 1
    requires Records(w.chain, index, w.id(b), after)
    ensures TipOk(w, after, accepted[w.Height(b) := w.id(b)], base, lastAccepted, Indexed(b))
    ensures w.Height(b) !in accepted
  {
    RecordsKeepsIndex(w.chain, index, accepted, w.id(b), after);
  }

  /** Accepting at a new height leaves the caches as they are. */
  lemma CachesStay<Ref>(
    w: World<Ref>, byId: Fifo<BlockId, Ref>, byHeight: Fifo<nat, BlockId>, accepted: map<nat, BlockId>,
    lastAccepted: Ref, b: Ref)
    requires CacheOk(w, byId, byHeight, accepted, lastAccepted) && w.Height(b) !in accepted
    ensures CacheOk(w, byId, byHeight, accepted[w.Height(b) := w.id(b)], lastAccepted)
  {
  }

  /** And so does the chain of accepted blocks. */
  lemma ChainStays<Ref>(w: World<Ref>, chain: seq<Ref>, outputs: map<Ref, Output>, accepted: map<nat, BlockId>, b: Ref)
    requires ChainOk(w, chain, outputs, accepted) && w.Height(b) !in accepted
    ensures ChainOk(w, chain, outputs, accepted[w.Height(b) := w.id(b)])
  {
  }

  lemma AcceptIndexKeeps<Ref>(w: World<Ref>, s: State<Ref>, b: Ref, after: Index)
    requires Inv(w, s) && MayAccept(w, s, b, after)
    ensures Inv(w, AcceptIndex(w, s, b, after))
  {
    var t := AcceptIndex(w, s, b, after);
    forall clause: Clause ensures clause in Kept(w, t) {
      if clause == Tip {
        AcceptIndexKeepsTip(w, s, b, after);
      } else if clause == Live || clause == Flow {
        AcceptIndexKeepsFlow(w, s, b, after);
      } else if clause == Caches {
        AcceptIndexKeepsCaches(w, s, b, after);
      } else if clause == Chained {
        AcceptIndexKeepsChain(w, s, b, after);
      } else {
        AcceptIndexKeepsRest(w, s, b, after, clause);
      }
    }
  }

  lemma AcceptIndexKeepsTip<Ref>(w: World<Ref>, s: State<Ref>, b: Ref, after: Index)
    requires Inv(w, s) && MayAccept(w, s, b, after)
    ensures Tip in Kept(w, AcceptIndex(w, s, b, after)) && w.Height(b) !in s.past.accepted
  {
    assert Tip in Kept(w, s);
    TipAdvances(w, s.index, s.past.accepted, s.past.base, s.lastAccepted, b, after);
  }

  lemma AcceptIndexKeepsFlow<Ref>(w: World<Ref>, s: State<Ref>, b: Ref, after: Index)
    requires Inv(w, s) && MayAccept(w, s, b, after)
    ensures Live in Kept(w, AcceptIndex(w, s, b, after)) && Flow in Kept(w, AcceptIndex(w, s, b, after))
  {
    assert Live in Kept(w, s) && ProcessingNames in Kept(w, s);
  }

  lemma AcceptIndexKeepsCaches<Ref>(w: World<Ref>, s: State<Ref>, b: Ref, after: Index)
    requires Inv(w, s) && MayAccept(w, s, b, after)
    ensures Caches in Kept(w, AcceptIndex(w, s, b, after))
  {
    AcceptIndexKeepsTip(w, s, b, after);
    assert Caches in Kept(w, s);
    CachesStay(w, s.byId, s.byHeight, s.past.accepted, s.lastAccepted, b);
  }

  lemma AcceptIndexKeepsChain<Ref>(w: World<Ref>, s: State<Ref>, b: Ref, after: Index)
    requires Inv(w, s) && MayAccept(w, s, b, after)
    ensures Chained in Kept(w, AcceptIndex(w, s, b, after))
  {
    AcceptIndexKeepsTip(w, s, b, after);
    if s.ready {
      assert Chained in Kept(w, s);
      ChainStays(w, s.past.chain, s.outputs, s.past.accepted, b);
    }
  }

  lemma AcceptIndexKeepsRest<Ref>(w: World<Ref>, s: State<Ref>, b: Ref, after: Index, clause: Clause)
    requires Inv(w, s) && MayAccept(w, s, b, after)
    requires clause !in {Tip, Live, Flow, Caches, Chained}
    ensures clause in Kept(w, AcceptIndex(w, s, b, after))
  {
    hide CacheOk, ChainOk, QueueOk, SettledOk, OutputsOk, AcceptedsOk, CallsOk, NamesOk, UnresolvedOk, VacuousOk;
    AcceptIndexKeepsTip(w, s, b, after);
    assert clause in Kept(w, s);
  }

  lemma ChainGrows<Ref>(
    w: World<Ref>, chain: seq<Ref>, outputs: map<Ref, Output>, accepted: map<nat, BlockId>, b: Ref)
    requires ChainOk(w, chain, outputs, accepted)
    requires b in outputs && Decided(w.chain, accepted, w.id(b))
    requires w.Parent(b) == w.id(chain[|chain| - 1]) && w.Height(b) == w.Height(chain[|chain| - 1]) + 1
    ensures ChainOk(w, chain + [b], outputs, accepted)
  {
  }

  lemma QueueGrows<Ref>(
    w: World<Ref>, chain: seq<Ref>, calls: seq<Call>, queue: seq<Ref>, accepter: Accepter<Ref>,
    lastProcessed: Option<Ref>, accepteds: map<Ref, Accepted>, b: Ref)
    requires QueueOk(w, chain, calls, queue, accepter, lastProcessed, accepteds) && |queue| < ACCEPTED_QUEUE_SIZE
    ensures QueueOk(w, chain + [b], calls, queue + [b], accepter, lastProcessed, accepteds)
  {
    var from := if accepter.Holding? then |calls| + 2 else |calls| + 1;
    assert (chain + [b])[from..] == chain[from..] + [b];
  }

  lemma AcceptQueueKeepsChain<Ref>(w: World<Ref>, s: State<Ref>, b: Ref)
    requires Inv(w, s) && s.engine == Indexed(b) && |s.queue| < ACCEPTED_QUEUE_SIZE && s.ready
    ensures Chained in Kept(w, AcceptQueue(s, b))
  {
    assert Chained in Kept(w, s) && Tip in Kept(w, s) && Front in Kept(w, s) && Flow in Kept(w, s);
    ChainGrows(w, s.past.chain, s.outputs, s.past.accepted, b);
  }

  lemma AcceptQueueKeepsPipeline<Ref>(w: World<Ref>, s: State<Ref>, b: Ref)
    requires Inv(w, s) && s.engine == Indexed(b) && |s.queue| < ACCEPTED_QUEUE_SIZE && s.ready
    ensures Pipeline in Kept(w, AcceptQueue(s, b))
  {
    assert Pipeline in Kept(w, s);
    QueueGrows(w, s.past.chain, s.past.calls, s.queue, s.accepter, s.lastProcessed, s.accepteds, b);
  }

  lemma AcceptQueueKeepsFront<Ref>(w: World<Ref>, s: State<Ref>, b: Ref, clause: Clause)
    requires Inv(w, s) && s.engine == Indexed(b) && s.ready && (clause == Front || clause == Recent)
    ensures clause in Kept(w, AcceptQueue(s, b))
  {
    var t := AcceptQueue(s, b);
    assert Settled(t.past.chain, t.engine) == s.past.chain;
    assert clause in Kept(w, s);
  }

  lemma AcceptQueueKeeps<Ref>(w: World<Ref>, s: State<Ref>, b: Ref)
    requires Inv(w, s) && s.engine == Indexed(b) && |s.queue| < ACCEPTED_QUEUE_SIZE
    ensures Inv(w, AcceptQueue(s, b))
  {
    var t := AcceptQueue(s, b);
    forall clause: Clause ensures clause in Kept(w, t) {
      if s.ready && clause == Chained {
        AcceptQueueKeepsChain(w, s, b);
      } else if s.ready && clause == Pipeline {
        AcceptQueueKeepsPipeline(w, s, b);
      } else if s.ready && (clause == Front || clause == Recent) {
        AcceptQueueKeepsFront(w, s, b, clause);
      } else {
        AcceptQueueKeepsRest(w, s, b, clause);
      }
    }
  }

  lemma AcceptQueueKeepsRest<Ref>(w: World<Ref>, s: State<Ref>, b: Ref, clause: Clause)
    requires Inv(w, s) && s.engine == Indexed(b)
    requires s.ready ==> clause !in {Chained, Pipeline, Front, Recent}
    ensures clause in Kept(w, AcceptQueue(s, b))
  {
    hide CacheOk, VacuousOk, ChainOk, QueueOk, FrontOk, SettledOk, UnresolvedOk, OutputsOk, AcceptedsOk, NamesOk, TreeOk;
    assert clause in Kept(w, s);
  }

  lemma AcceptRemoveKeeps<Ref>(w: World<Ref>, s: State<Ref>, b: Ref)
    requires Inv(w, s) && s.engine == Queued(b)
    ensures Inv(w, AcceptRemove(w, s, b))
  {
    hide CacheOk, ChainOk, QueueOk, SettledOk, OutputsOk, AcceptedsOk, CallsOk, IndexOk;
    var t := AcceptRemove(w, s, b);
    forall clause: Clause ensures clause in Kept(w, t) {
      assert clause in Kept(w, s);
      if clause == Entered || clause == Tree {
        assert Tip in Kept(w, s);
      } else if clause == Unresolved {
        assert Flow in Kept(w, s);
      }
    }
  }

  /** A block above everything cached is new to both caches. */
  lemma NewToBoth<Ref>(
    w: World<Ref>, byId: Fifo<BlockId, Ref>, byHeight: Fifo<nat, BlockId>, accepted: map<nat, BlockId>,
    lastAccepted: Ref, b: Ref)
    requires CacheOk(w, byId, byHeight, accepted, lastAccepted) && w.Height(lastAccepted) < w.Height(b)
    ensures w.id(b) !in byId.entries && w.Height(b) !in byHeight.entries
  {
    forall i | 0 <= i < |byHeight.order| ensures byHeight.order[i] < w.Height(b) {
      assert byId.order[i] in byId.entries;
    }
  }

  lemma LockstepAdvances(c: Chain, ids: seq<BlockId>, heights: seq<nat>, limit: nat, id: BlockId)
    requires Lockstep(c, ids, heights)
    ensures Lockstep(c, Pushed(ids, limit, id), Pushed(heights, limit, c.Height(id)))
  {
  }

  /** A block that the cache by ID keeps is also kept by the cache by height. */
  lemma KeptByBoth<Ref>(
    w: World<Ref>, byId: Fifo<BlockId, Ref>, byHeight: Fifo<nat, BlockId>, accepted: map<nat, BlockId>,
    lastAccepted: Ref, b: Ref, x: BlockId)
    requires CacheOk(w, byId, byHeight, accepted, lastAccepted)
    requires w.id(b) !in byId.entries && w.Height(b) !in byHeight.entries
    requires x != w.id(b) && x in byId.Put(w.id(b), b).entries
    ensures x in byId.entries
    ensures var after := byHeight.Put(w.Height(b), w.id(b)).entries;
            w.chain.Height(x) in after && after[w.chain.Height(x)] == x
  {
    assert x in byId.entries;
    if |byId.order| == byId.limit {
      assert x != byId.order[0];
      assert byId.order[0] in byId.entries;
      assert w.chain.Height(x) != byHeight.order[0];
    }
  }

  /** Storing a higher block into both caches keeps them in lockstep. */
  lemma CachesAdvance<Ref>(
    w: World<Ref>, byId: Fifo<BlockId, Ref>, byHeight: Fifo<nat, BlockId>, accepted: map<nat, BlockId>,
    lastAccepted: Ref, b: Ref)
    requires CacheOk(w, byId, byHeight, accepted, lastAccepted) && Decided(w.chain, accepted, w.id(b))
    requires w.Height(lastAccepted) < w.Height(b)
    ensures CacheOk(w, byId.Put(w.id(b), b), byHeight.Put(w.Height(b), w.id(b)), accepted, b)
  {
    NewToBoth(w, byId, byHeight, accepted, lastAccepted, b);
    PutKeepsValid(byId, w.id(b), b);
    PutKeepsValid(byHeight, w.Height(b), w.id(b));
    LockstepAdvances(w.chain, byId.order, byHeight.order, byId.limit, w.id(b));
    PushAges(byId.order, byId.limit, w.id(b));
    var g, h := byId.Put(w.id(b), b), byHeight.Put(w.Height(b), w.id(b));
    forall x | x in g.entries
      ensures Decided(w.chain, accepted, x) && w.chain.Height(x) <= w.Height(b)
      ensures w.chain.Height(x) in h.entries && h.entries[w.chain.Height(x)] == x
    {
      if x != w.id(b) {
        KeptByBoth(w, byId, byHeight, accepted, lastAccepted, b, x);
      }
    }
  }

  /** The newest settled blocks stay the newest entries of the cache. */
  lemma RecentAdvances<Ref>(w: World<Ref>, settled: seq<Ref>, byId: Fifo<BlockId, Ref>, b: Ref)
    requires SettledOk(w, settled, byId) && byId.Valid() && w.id(b) !in byId.entries
    ensures SettledOk(w, settled + [b], byId.Put(w.id(b), b))
  {
    var g, grown := byId.Put(w.id(b), b), settled + [b];
    CachedNow(w, byId, b);
    forall k | 0 <= k < |grown| && |grown| - k <= g.limit ensures CachedAt(w, g, grown[k], |grown| - 1 - k) {
      if k < |settled| {
        assert grown[k] == settled[k];
        CachedLonger(w, byId, settled[k], |settled| - 1 - k, b);
      }
    }
  }

  lemma CachedNow<Ref>(w: World<Ref>, byId: Fifo<BlockId, Ref>, b: Ref)
    requires byId.Valid() && w.id(b) !in byId.entries
    ensures CachedAt(w, byId.Put(w.id(b), b), b, 0)
  {
    PushAges(byId.order, byId.limit, w.id(b));
  }

  /** A cached block that is not the oldest of a full cache ages by one. */
  lemma CachedLonger<Ref>(w: World<Ref>, byId: Fifo<BlockId, Ref>, x: Ref, age: nat, b: Ref)
    requires CachedAt(w, byId, x, age) && byId.Valid() && w.id(b) !in byId.entries && age + 1 < byId.limit
    ensures CachedAt(w, byId.Put(w.id(b), b), x, age + 1)
  {
    PushAges(byId.order, byId.limit, w.id(b));
    PutKeepsValid(byId, w.id(b), b);
    var g := byId.Put(w.id(b), b);
    assert Aged(g.order, age + 1) == Aged(byId.order, age);
    assert w.id(x) in g.order;
  }

  lemma AcceptSetIsNew<Ref>(w: World<Ref>, s: State<Ref>, b: Ref)
    requires Inv(w, s) && s.engine == Removed(b)
    ensures s.byId.Valid() && w.id(b) !in s.byId.entries
    ensures s.past.base < w.Height(b) && b in s.live
  {
    assert Caches in Kept(w, s) && Tip in Kept(w, s) && Live in Kept(w, s);
    NewToBoth(w, s.byId, s.byHeight, s.past.accepted, s.lastAccepted, b);
  }

  lemma AcceptSetKeepsCaches<Ref>(w: World<Ref>, s: State<Ref>, b: Ref)
    requires Inv(w, s) && s.engine == Removed(b)
    ensures Caches in Kept(w, AcceptSet(w, s, b))
  {
    assert Caches in Kept(w, s) && Tip in Kept(w, s);
    CachesAdvance(w, s.byId, s.byHeight, s.past.accepted, s.lastAccepted, b);
  }

  lemma AcceptSetKeepsRecent<Ref>(w: World<Ref>, s: State<Ref>, b: Ref)
    requires Inv(w, s) && s.engine == Removed(b) && s.ready
    ensures Recent in Kept(w, AcceptSet(w, s, b))
  {
    AcceptSetIsNew(w, s, b);
    assert Recent in Kept(w, s) && Front in Kept(w, s);
    assert s.past.chain == Settled(s.past.chain, s.engine) + [b];
    RecentAdvances(w, Settled(s.past.chain, s.engine), s.byId, b);
  }

  lemma NamesAdvance<Ref>(w: World<Ref>, live: set<Ref>, byId: Fifo<BlockId, Ref>, b: Ref)
    requires NamesOk(w, live, byId.entries) && b in live && byId.Valid()
    ensures NamesOk(w, live, byId.Put(w.id(b), b).entries)
  {
    PutKeepsValid(byId, w.id(b), b);
  }

  lemma VacuousAdvances<Ref>(
    w: World<Ref>, outputs: map<Ref, Output>, processing: map<BlockId, Ref>, byId: Fifo<BlockId, Ref>, base: nat, b: Ref)
    requires VacuousOk(w, outputs, processing, byId, base) && base < w.Height(b) && byId.Valid()
    ensures VacuousOk(w, outputs, processing, byId.Put(w.id(b), b), base)
  {
    PutKeepsValid(byId, w.id(b), b);
  }

  /** What the caches and the last accepted block do not show in. */
  lemma AcceptSetKeepsRest<Ref>(w: World<Ref>, s: State<Ref>, b: Ref, clause: Clause)
    requires Inv(w, s) && s.engine == Removed(b)
    requires !clause.Caches? && !clause.Recent? && !clause.AcceptedNames? && !clause.Vacuous? && !clause.Tip?
    ensures clause in Kept(w, AcceptSet(w, s, b))
  {
    assert clause in Kept(w, s);
  }

  lemma AcceptSetKeepsFiles<Ref>(w: World<Ref>, s: State<Ref>, b: Ref, clause: Clause)
    requires Inv(w, s) && s.engine == Removed(b)
    requires clause.AcceptedNames? || clause.Vacuous? || clause.Tip?
    ensures clause in Kept(w, AcceptSet(w, s, b))
  {
    assert clause in Kept(w, s);
    AcceptSetIsNew(w, s, b);
    if clause == AcceptedNames {
      NamesAdvance(w, s.live, s.byId, b);
    } else if clause == Vacuous && !s.ready {
      VacuousAdvances(w, s.outputs, s.processing, s.byId, s.past.base, b);
    }
  }

  lemma AcceptSetKeeps<Ref>(w: World<Ref>, s: State<Ref>, b: Ref)
    requires Inv(w, s) && s.engine == Removed(b)
    ensures Inv(w, AcceptSet(w, s, b))
  {
    var t := AcceptSet(w, s, b);
    forall clause: Clause ensures clause in Kept(w, t) {
      if clause == Caches {
        AcceptSetKeepsCaches(w, s, b);
      } else if clause == Recent {
        if s.ready {
          AcceptSetKeepsRecent(w, s, b);
        }
      } else if clause == AcceptedNames || clause == Vacuous || clause == Tip {
        AcceptSetKeepsFiles(w, s, b, clause);
      } else {
        AcceptSetKeepsRest(w, s, b, clause);
      }
    }
  }

  lemma DequeueKeeps<Ref>(w: World<Ref>, s: State<Ref>)
    requires Inv(w, s) && s.accepter == Waiting && s.queue != []
    ensures Inv(w, Dequeue(s))
  {
    var t := Dequeue(s);
    forall clause: Clause ensures clause in Kept(w, t) {
      assert clause in Kept(w, s);
    }
  }

  lemma {:induction false} ChainHeights<Ref>(
    w: World<Ref>, chain: seq<Ref>, outputs: map<Ref, Output>, accepted: map<nat, BlockId>, k: nat)
    requires ChainOk(w, chain, outputs, accepted) && k < |chain|
    ensures w.Height(chain[k]) == w.Height(chain[0]) + k
  {
    if k > 0 {
      ChainHeights(w, chain, outputs, accepted, k - 1);
    }
  }

  /** What the block in the accepter's hand is, and how far behind the last accepted block its parent is. */
  lemma InHand<Ref>(w: World<Ref>, s: State<Ref>, b: Ref)
    requires Inv(w, s) && s.accepter == Holding(b)
    ensures s.ready && |s.past.calls| + 1 < |s.past.chain| && b == s.past.chain[|s.past.calls| + 1] && b in s.outputs
    ensures w.Parent(b) == w.id(s.past.chain[|s.past.calls|])
    ensures w.Height(b) == w.Height(s.past.chain[|s.past.calls|]) + 1
    ensures s.past.chain[|s.past.calls|] in s.accepteds
    ensures |s.past.calls| < |Settled(s.past.chain, s.engine)| <= |s.past.calls| + SAFE_WINDOW
  {
    assert Still in Kept(w, s);
    assert Pipeline in Kept(w, s) && Chained in Kept(w, s);
  }

  lemma ParentNotProcessing<Ref>(w: World<Ref>, s: State<Ref>, b: Ref)
    requires Inv(w, s) && s.accepter == Holding(b)
    ensures w.Parent(b) !in s.processing
  {
    InHand(w, s, b);
    var chain, n := s.past.chain, |s.past.calls|;
    assert Chained in Kept(w, s) && Disjoint in Kept(w, s) && Front in Kept(w, s) && Tip in Kept(w, s);
    ChainHeights(w, chain, s.outputs, s.past.accepted, n);
    ChainHeights(w, chain, s.outputs, s.past.accepted, |chain| - 1);
  }

  /** The newest settled blocks are cached, the same blocks that were accepted. */
  lemma ParentCached<Ref>(w: World<Ref>, s: State<Ref>, b: Ref)
    requires Inv(w, s) && s.accepter == Holding(b)
    requires |Settled(s.past.chain, s.engine)| - |s.past.calls| <= s.byId.limit
    ensures |s.past.calls| < |s.past.chain|
    ensures GetBlock(w, s, w.Parent(b)) == Found(s.past.chain[|s.past.calls|])
  {
    InHand(w, s, b);
    ParentNotProcessing(w, s, b);
    assert Recent in Kept(w, s);
    assert Settled(s.past.chain, s.engine)[|s.past.calls|] == s.past.chain[|s.past.calls|];
  }

  /** A cache full of newer settled blocks holds none of the older ones. */
  lemma EvictedOnceFull<Ref>(w: World<Ref>, settled: seq<Ref>, byId: Fifo<BlockId, Ref>, n: nat)
    requires SettledOk(w, settled, byId) && byId.Valid() && n < |settled| - byId.limit
    requires forall i, j :: 0 <= i < j < |settled| ==> w.id(settled[i]) != w.id(settled[j])
    ensures w.id(settled[n]) !in byId.entries
  {
    forall i | 0 <= i < |byId.order| ensures byId.order[i] != w.id(settled[n]) {
      var k := |settled| - |byId.order| + i;
      assert w.id(settled[k]) in byId.entries;
      assert Aged(byId.order, |settled| - 1 - k) == byId.order[i];
    }
  }

  lemma ParentEvicted<Ref>(w: World<Ref>, s: State<Ref>, b: Ref)
    requires Inv(w, s) && s.accepter == Holding(b)
    requires |Settled(s.past.chain, s.engine)| - |s.past.calls| > s.byId.limit
    ensures !GetBlock(w, s, w.Parent(b)).Found?
  {
    ParentNotProcessing(w, s, b);
    ParentNotCached(w, s, b);
  }

  lemma ParentNotCached<Ref>(w: World<Ref>, s: State<Ref>, b: Ref)
    requires Inv(w, s) && s.accepter == Holding(b)
    requires |Settled(s.past.chain, s.engine)| - |s.past.calls| > s.byId.limit
    ensures w.Parent(b) !in s.byId.entries
  {
    InHand(w, s, b);
    SettledAreCached(w, s);
    SettledAreDistinct(w, s);
    var settled, n := Settled(s.past.chain, s.engine), |s.past.calls|;
    EvictedOnceFull(w, settled, s.byId, n);
    assert settled[n] == s.past.chain[n];
  }

  lemma SettledAreCached<Ref>(w: World<Ref>, s: State<Ref>)
    requires Inv(w, s) && s.ready
    ensures SettledOk(w, Settled(s.past.chain, s.engine), s.byId) && s.byId.Valid()
  {
    assert Recent in Kept(w, s) && Caches in Kept(w, s);
  }

  lemma SettledAreDistinct<Ref>(w: World<Ref>, s: State<Ref>)
    requires Inv(w, s) && s.ready
    ensures var settled := Settled(s.past.chain, s.engine);
            forall i, j :: 0 <= i < j < |settled| ==> w.id(settled[i]) != w.id(settled[j])
  {
    var chain, settled := s.past.chain, Settled(s.past.chain, s.engine);
    assert Chained in Kept(w, s);
    ChainIsDistinct(w, chain, s.outputs, s.past.accepted);
    assert forall i :: 0 <= i < |settled| ==> settled[i] == chain[i];
  }

  lemma ChainIsDistinct<Ref>(w: World<Ref>, chain: seq<Ref>, outputs: map<Ref, Output>, accepted: map<nat, BlockId>)
    requires ChainOk(w, chain, outputs, accepted)
    ensures forall i, j :: 0 <= i < j < |chain| ==> w.id(chain[i]) != w.id(chain[j])
  {
    forall i, j | 0 <= i < j < |chain| ensures w.id(chain[i]) != w.id(chain[j]) {
      ChainHeights(w, chain, outputs, accepted, i);
      ChainHeights(w, chain, outputs, accepted, j);
    }
  }

  /** AcceptBlock is handed the parent's accepted form, and so returns the block's own. */
  lemma ProcessedIsFold<Ref>(w: World<Ref>, s: State<Ref>, b: Ref)
    requires Sound(w.chain) && Inv(w, s) && s.accepter == Holding(b) && Process(w, s, b).Some?
    requires SAFE_WINDOW <= s.byId.limit
    ensures |s.past.calls| < |s.past.chain|
    ensures ParentAccepted(w, s, b).Some?
    ensures ParentAccepted(w, s, b) == AcceptedOf(w.chain, w.id(s.past.chain[|s.past.calls|]))
    ensures AcceptedOf(w.chain, w.id(b)) == Some(Process(w, s, b).value.accepteds[b])
  {
    InHand(w, s, b);
    ParentCached(w, s, b);
    assert Accepteds in Kept(w, s) && Outputs in Kept(w, s);
    AcceptExtends(w.chain, w.id(b));
  }

  /** Whatever the size of the cache, it panics when the parent is nowhere to be found, and goes on otherwise
      exactly when the chain accepts the block on the accepted form found, if any. */
  lemma AccepterPanics<Ref>(w: World<Ref>, s: State<Ref>, b: Ref)
    requires Inv(w, s) && s.accepter == Holding(b)
    ensures b in s.outputs
    ensures var parent := w.Parent(b);
            var found := parent in s.processing || parent in s.byId.entries;
            && (!found && !s.index.Holds(w.chain, parent) ==> Process(w, s, b).None?)
            && (!found && s.index.Holds(w.chain, parent) ==>
                  (Process(w, s, b).Some? <==> w.chain.accept(None, s.outputs[b]).Some?))
  {
    InHand(w, s, b);
  }

  /** With a cache of at least eighteen the accepter panics exactly when the chain refuses the block: the
      parent is never missing, and never without its accepted form. */
  lemma AccepterAnswers<Ref>(w: World<Ref>, s: State<Ref>, b: Ref)
    requires Sound(w.chain) && Inv(w, s) && s.accepter == Holding(b) && 18 <= s.byId.limit
    ensures Process(w, s, b).Some? <==> AcceptedOf(w.chain, w.id(b)).Some?
  {
    InHand(w, s, b);
    ParentCached(w, s, b);
    assert Accepteds in Kept(w, s) && Outputs in Kept(w, s);
    AcceptExtends(w.chain, w.id(b));
  }

  lemma ProcessKeeps<Ref>(w: World<Ref>, s: State<Ref>, b: Ref)
    requires Sound(w.chain) && Inv(w, s) && s.accepter == Holding(b) && Process(w, s, b).Some?
    ensures Inv(w, Process(w, s, b).value)
  {
    forall clause: Clause ensures clause in Kept(w, Process(w, s, b).value) {
      if clause in {Live, Pipeline, Accepteds, Calls} {
        ProcessKeepsCalls(w, s, b, clause);
      } else {
        ProcessKeepsRest(w, s, b, clause);
      }
    }
  }

  lemma ProcessKeepsCalls<Ref>(w: World<Ref>, s: State<Ref>, b: Ref, clause: Clause)
    requires Sound(w.chain) && Inv(w, s) && s.accepter == Holding(b) && Process(w, s, b).Some?
    requires clause in {Live, Pipeline, Accepteds, Calls}
    ensures clause in Kept(w, Process(w, s, b).value)
  {
    InHand(w, s, b);
    if SAFE_WINDOW <= s.byId.limit {
      ProcessedIsFold(w, s, b);
    }
    assert clause in Kept(w, s);
  }

  lemma ProcessKeepsRest<Ref>(w: World<Ref>, s: State<Ref>, b: Ref, clause: Clause)
    requires Inv(w, s) && s.accepter == Holding(b) && Process(w, s, b).Some?
    requires clause !in {Live, Pipeline, Accepteds, Calls}
    ensures clause in Kept(w, Process(w, s, b).value)
  {
    hide CacheOk, ChainOk, FrontOk, SettledOk, OutputsOk, NamesOk, UnresolvedOk, VacuousOk, TipOk, DisjointOk, TreeOk;
    assert clause in Kept(w, s);
  }

  lemma SetProcessedKeeps<Ref>(w: World<Ref>, s: State<Ref>, b: Ref)
    requires Inv(w, s) && s.accepter == Stored(b)
    ensures Inv(w, SetProcessed(s, b))
  {
    var t := SetProcessed(s, b);
    forall clause: Clause ensures clause in Kept(w, t) {
      assert clause in Kept(w, s);
    }
  }

  lemma RejectKeeps<Ref>(w: World<Ref>, s: State<Ref>, b: Ref)
    requires Inv(w, s) && MayReject(w, s, b)
    ensures Inv(w, Reject(w, s, b))
  {
    var t := Reject(w, s, b);
    assert Disjoint in Kept(w, s);
    forall clause: Clause ensures clause in Kept(w, t) {
      assert clause in Kept(w, s);
    }
  }

  lemma PreferKeeps<Ref>(w: World<Ref>, s: State<Ref>, id: BlockId)
    requires Inv(w, s)
    ensures Inv(w, s.(preferred := id))
  {
    forall clause: Clause ensures clause in Kept(w, s.(preferred := id)) {
      assert clause in Kept(w, s);
    }
  }
}
