/** The consensus VM itself: StatefulBlock objects, and a VM whose methods update them and its own
    fields. Every method is proved to take the state from one step of the state machine to the next. */
module SnowVM {
  import opened Bytes
  import opened SnowChain
  import opened SnowState
  import Spec = SnowState
  import opened SnowInvariant
  import opened SnowSteps

  class StatefulBlock {
    const input: BlockId
    var output: Option<Output>
    var accepted: Option<Accepted>

    constructor NewInputBlock(input: BlockId)
      ensures this.input == input && output == None && accepted == None
    {
      this.input, output, accepted := input, None, None;
    }

    constructor NewVerifiedBlock(input: BlockId, output: Output)
      ensures this.input == input && this.output == Some(output) && accepted == None
    {
      this.input, this.output, accepted := input, Some(output), None;
    }

    constructor NewAcceptedBlock(input: BlockId, output: Output, accepted: Accepted)
      ensures this.input == input && this.output == Some(output) && this.accepted == Some(accepted)
    {
      this.input, this.output, this.accepted := input, Some(output), Some(accepted);
    }
  }

  function InputOf(b: StatefulBlock): BlockId {
    b.input
  }

  ghost function OutputsOf(live: set<StatefulBlock>): map<StatefulBlock, Output>
    reads live
  {
    map b | b in live && b.output.Some? :: b.output.value
  }

  ghost function AcceptedsOf(live: set<StatefulBlock>): map<StatefulBlock, Accepted>
    reads live
  {
    map b | b in live && b.accepted.Some? :: b.accepted.value
  }

  /** Putting an ID behind the ones that are no higher keeps the order by height. */
  lemma InsertedAt(c: Chain, order: seq<BlockId>, id: BlockId, i: nat)
    requires Sorted(c, order) && Distinct(order) && id !in order && i <= |order|
    requires forall k :: 0 <= k < i ==> c.Height(order[k]) <= c.Height(id)
    requires i < |order| ==> c.Height(id) < c.Height(order[i])
    ensures var r := order[..i] + [id] + order[i..];
            Sorted(c, r) && Distinct(r) && (forall x :: x in r <==> x == id || x in order)
  {
    var r := order[..i] + [id] + order[i..];
    assert order == order[..i] + order[i..];
    forall j | i <= j < |order| ensures c.Height(id) < c.Height(order[j]) {
      assert c.Height(order[i]) <= c.Height(order[j]) || i == j;
    }
    assert forall k :: 0 <= k < |r| ==> r[k] == if k < i then order[k] else if k == i then id else order[k - 1];
  }

  class VM {
    const chain: Chain
    var parsedBlocks: map<BlockId, StatefulBlock>
    var verifiedBlocks: map<BlockId, StatefulBlock>
    var acceptedBlocksByID: Fifo<BlockId, StatefulBlock>
    var acceptedBlocksByHeight: Fifo<nat, BlockId>
    var acceptedQueue: seq<StatefulBlock>
    var lastAcceptedBlock: StatefulBlock
    var lastProcessedBlock: Option<StatefulBlock>
    var preferredBlkID: BlockId
    var ready: bool
    var inputChainIndex: Index
    var unresolvedBlocks: Option<set<BlockId>>

    /** Where the two threads stand, which blocks exist, and what happened so far. */
    var engine: Engine<StatefulBlock>
    var accepter: Accepter<StatefulBlock>
    ghost var live: set<StatefulBlock>
    ghost var past: Past<StatefulBlock>

    function W(): World<StatefulBlock> {
      World(chain, InputOf)
    }

    ghost function S(): State<StatefulBlock>
      reads this, live
    {
      State(live, OutputsOf(live), AcceptedsOf(live), parsedBlocks, verifiedBlocks, acceptedBlocksByID,
            acceptedBlocksByHeight, acceptedQueue, accepter, engine, lastAcceptedBlock, lastProcessedBlock,
            preferredBlkID, ready, inputChainIndex, unresolvedBlocks, past)
    }

    /** The blocks that the fields refer to exist. */
    ghost predicate Valid()
      reads this, live
    {
      && NamesOk(W(), live, parsedBlocks)
      && NamesOk(W(), live, verifiedBlocks)
      && NamesOk(W(), live, acceptedBlocksByID.entries)
      && lastAcceptedBlock in live
    }

    /** A VM on the indexed tip, held by `b` and processed when `b` has been. */
    constructor (chain: Chain, index: Index, limit: nat, ghost accepted: map<nat, BlockId>, b: StatefulBlock)
      requires b.output.Some? == b.accepted.Some?
      ensures Valid() && this.chain == chain
      ensures S() == Fresh(W(), index, limit, accepted,
                           if b.output.Some? then Some(Processed(b.output.value, b.accepted.value)) else None, b)
    {
      this.chain := chain;
      parsedBlocks, verifiedBlocks := map[], map[];
      acceptedBlocksByID := Fifo(limit, [], map[]).Put(b.input, b);
      acceptedBlocksByHeight := Fifo(limit, [], map[]).Put(chain.Height(b.input), b.input);
      acceptedQueue, accepter, engine := [], Waiting, Idle;
      lastAcceptedBlock := b;
      lastProcessedBlock := if b.output.Some? then Some(b) else None;
      preferredBlkID, ready := b.input, b.output.Some?;
      inputChainIndex, unresolvedBlocks := index, None;
      live := {b};
      past := Past(accepted, {}, {}, index.last, if b.output.Some? then [b] else [], []);
      new;
      assert OutputsOf(live) == (if b.output.Some? then map[b := b.output.value] else map[]);
      assert AcceptedsOf(live) == (if b.output.Some? then map[b := b.accepted.value] else map[]);
    }

    /** makeConsensusIndex for a new VM. None is an error. `notified` are the accepted notifications
        sent on the way. */
    static method MakeConsensusIndex(
      chain: Chain, index: Index, limit: nat, ghost accepted: map<nat, BlockId>, start: Option<Processed>)
      returns (vm: VM?, notified: seq<Accepted>)
      requires Sound(chain) && Linked(chain, index) && index.last in index.blocks
      ensures vm != null <==>
                limit > 0 && (start.Some? ==> Reprocessed(chain, index, index.blocks[index.last], start.value).0.Some?)
      ensures vm != null ==> fresh(vm) && vm.Valid() && vm.chain == chain
      ensures vm != null ==> vm.lastAcceptedBlock.input == index.blocks[index.last]
      ensures vm != null ==>
                Some(vm.S()) == Boot(vm.W(), index, limit, accepted, start, vm.lastAcceptedBlock)
      ensures start.Some? && limit > 0 ==>
                notified == Reprocessed(chain, index, index.blocks[index.last], start.value).1
    {
      var tip := index.blocks[index.last];
      notified := [];
      if limit == 0 {
        return null, [];
      }
      var b;
      if start.Some? {
        var r;
        r, notified := Reprocess(chain, index, tip, start.value);
        if r.None? {
          return null, notified;
        }
        b := new StatefulBlock.NewAcceptedBlock(tip, r.value.output, r.value.accepted);
      } else {
        b := new StatefulBlock.NewInputBlock(tip);
      }
      vm := new VM(chain, index, limit, accepted, b);
    }

    // ---- Lookups ---------------------------------------------------------------------------

    /** GetBlock: a block read back from disk is a new one that holds only its input. */
    method GetBlock(id: BlockId) returns (r: Option<StatefulBlock>)
      ensures match Spec.GetBlock(W(), S(), id)
              case Found(b) => r == Some(b)
              case OnDisk => r.Some? && fresh(r.value) && r.value.input == id && r.value.output == None && r.value.accepted == None
              case Missing => r == None
    {
      if id in verifiedBlocks {
        return Some(verifiedBlocks[id]);
      }
      if id in acceptedBlocksByID.entries {
        return Some(acceptedBlocksByID.entries[id]);
      }
      if !inputChainIndex.Holds(chain, id) {
        return None;
      }
      var b := new StatefulBlock.NewInputBlock(id);
      return Some(b);
    }

    method GetBlockByHeight(height: nat) returns (r: Option<StatefulBlock>)
      ensures match Spec.GetBlockByHeight(W(), S(), height)
              case None => r == None
              case Some((id, Found(b))) => r == Some(b)
              case Some((id, OnDisk)) => r.Some? && fresh(r.value) && r.value.input == id && r.value.output == None
              case Some((id, Missing)) => r == None
    {
      if chain.Height(lastAcceptedBlock.input) == height {
        return Some(lastAcceptedBlock);
      }
      var id;
      if height in acceptedBlocksByHeight.entries {
        id := acceptedBlocksByHeight.entries[height];
      } else if height in inputChainIndex.blocks {
        id := inputChainIndex.blocks[height];
      } else {
        return None;
      }
      if id in acceptedBlocksByID.entries {
        return Some(acceptedBlocksByID.entries[id]);
      }
      r := GetBlock(id);
    }

    // ---- Parsing and building ----------------------------------------------------------------

    /** ParseBlock of bytes whose hash is `id`: the block known under that ID, or a new input block. */
    method ParseBlock(id: BlockId, evicted: set<BlockId>) returns (r: StatefulBlock)
      requires Valid()
      modifies this`parsedBlocks, this`live
      ensures Valid() && r in live && r.input == id && (r in old(live) || fresh(r))
      ensures id in old(verifiedBlocks) ==> r == old(verifiedBlocks[id])
      ensures id !in old(verifiedBlocks) && id in old(acceptedBlocksByID).entries ==> r == old(acceptedBlocksByID.entries[id])
      ensures id !in old(verifiedBlocks) && id !in old(acceptedBlocksByID).entries && inputChainIndex.Holds(chain, id) ==>
                fresh(r) && r.output.None? && r.accepted.None? && parsedBlocks == old(parsedBlocks)
      ensures id !in old(verifiedBlocks) && id !in old(acceptedBlocksByID).entries && !inputChainIndex.Holds(chain, id) ==>
                if id in old(parsedBlocks) then r == old(parsedBlocks[id]) && parsedBlocks == old(parsedBlocks)
                else fresh(r) && r.output.None? && r.accepted.None? && parsedBlocks == old(parsedBlocks - evicted)[id := r]
      ensures S() == Spec.ParseBlock(W(), old(S()), id, r, evicted)
    {
      var existing := GetBlock(id);
      if existing.Some? {
        r := existing.value;
        Grow(r);
      } else if id in parsedBlocks {
        r := parsedBlocks[id];
      } else {
        r := new StatefulBlock.NewInputBlock(id);
        Grow(r);
        parsedBlocks := (parsedBlocks - evicted)[id := r];
      }
    }

    /** Takes in a block that is known already or holds only its input. */
    ghost method Grow(b: StatefulBlock)
      requires b in live || (b.output == None && b.accepted == None)
      modifies this`live
      ensures S() == old(S()).(live := old(live) + {b})
    {
      live := live + {b};
      assert OutputsOf(live) == old(OutputsOf(live));
      assert AcceptedsOf(live) == old(AcceptedsOf(live));
    }

    /** buildBlock: `built` is what the chain's BuildBlock returns on the preferred block's output. */
    method BuildBlock(built: Option<Output>, evicted: set<BlockId>) returns (r: Option<StatefulBlock>)
      requires Valid()
      modifies this`parsedBlocks, this`live
      ensures Valid()
      ensures r.None? <==> Spec.GetBlock(W(), old(S()), preferredBlkID) == Missing || built.None?
      ensures r.None? ==> S() == old(S())
      ensures r.Some? ==> r.value.output == built && r.value.accepted.None?
                          && parsedBlocks == old(parsedBlocks - evicted)[built.value.id := r.value]
      ensures r.Some? ==> fresh(r.value) && r.value in live && r.value.input == built.value.id
                          && S() == Spec.BuildBlock(old(S()), built.value, r.value, evicted)
    {
      var preferred := GetBlock(preferredBlkID);
      if preferred.None? || built.None? {
        return None;
      }
      var b := new StatefulBlock.NewVerifiedBlock(built.value.id, built.value);
      CacheBuilt(b, evicted);
      r := Some(b);
    }

    /** Stores a built block into the bounded cache of parsed blocks; what that evicts is up to the cache. */
    method CacheBuilt(b: StatefulBlock, evicted: set<BlockId>)
      requires Valid() && b !in live && b.output.Some? && b.accepted == None && b.input == b.output.value.id
      modifies this`parsedBlocks, this`live
      ensures Valid() && live == old(live) + {b}
      ensures S() == Spec.BuildBlock(old(S()), b.output.value, b, evicted)
    {
      GrowVerified(b);
      parsedBlocks := (parsedBlocks - evicted)[b.input := b];
    }

    /** Takes in a new block that is verified. */
    ghost method GrowVerified(b: StatefulBlock)
      requires b !in live && b.output.Some?
      modifies this`live
      ensures b.accepted == None ==>
                S() == old(S()).(live := old(live) + {b}, outputs := old(S()).outputs[b := b.output.value])
      ensures b.accepted.Some? ==> S() == Fill(old(S()), b, Processed(b.output.value, b.accepted.value))
    {
      live := live + {b};
      assert OutputsOf(live) == old(OutputsOf(live))[b := b.output.value];
      assert AcceptedsOf(live) == (if b.accepted.None? then old(AcceptedsOf(live))
                                   else old(AcceptedsOf(live))[b := b.accepted.value]);
    }

    method SetPreference(id: BlockId)
      modifies this`preferredBlkID
      ensures S() == old(S()).(preferred := id)
    {
      preferredBlkID := id;
    }

    // ---- Verifying ---------------------------------------------------------------------------

    /** Looks up the parent of `b` and executes `b` on its output, if it has one. */
    method Execute(b: StatefulBlock) returns (r: Option<Output>, missing: bool)
      requires Valid() && b in live
      ensures missing == (Spec.GetBlock(W(), S(), chain.Parent(b.input)) == Missing)
      ensures r == Executed(W(), S(), b)
    {
      var parent := GetBlock(chain.Parent(b.input));
      missing := parent.None?;
      if missing || parent.value.output.None? {
        return None, missing;
      }
      r := chain.verify(parent.value.output.value, b.input);
    }

    /** Sets the output of a block. */
    method SetOutput(b: StatefulBlock, output: Output)
      requires b in live
      modifies b`output
      ensures S() == old(S()).(outputs := old(S()).outputs[b := output])
    {
      b.output := Some(output);
      assert OutputsOf(live) == old(OutputsOf(live))[b := output];
      assert AcceptedsOf(live) == old(AcceptedsOf(live));
    }

    method Track(b: StatefulBlock)
      requires Valid() && b in live
      modifies this`verifiedBlocks, this`past
      ensures Valid() && S() == Spec.Track(W(), old(S()), b)
    {
      verifiedBlocks := verifiedBlocks[b.input := b];
      past := past.(entered := past.entered + {b.input});
    }

    /** verifyWithContext. `provided` is the P-Chain height the engine passes, if any. */
    method VerifyWithContext(b: StatefulBlock, provided: Option<nat>) returns (ok: bool)
      requires Valid() && b in live
      modifies b`output, this`verifiedBlocks, this`past
      ensures Valid()
      ensures (ok, S()) == VerifyBlock(W(), old(S()), b, provided)
    {
      if ready && b.output.Some? && provided != chain.header(b.input).context {
        return false;
      }
      if ready && b.output.None? {
        var output, missing := Execute(b);
        if missing || output.None? || provided != chain.header(b.input).context {
          return false;
        }
        SetOutput(b, output.value);
      }
      Track(b);
      ok := true;
    }

    // ---- Accepting and rejecting -------------------------------------------------------------

    /** The start of Accept: refuses an unverified block once ready, and otherwise writes the index.
        `after` is what UpdateLastAccepted leaves, or None when it fails. */
    method UpdateIndex(b: StatefulBlock, after: Option<Index>) returns (ok: bool)
      requires Valid() && b in live && engine == Idle
      modifies this`inputChainIndex, this`engine, this`past
      ensures Valid()
      ensures ok == ((old(ready) ==> old(b.output).Some?) && after.Some?)
      ensures S() == if ok then AcceptIndex(W(), old(S()), b, after.value) else old(S())
    {
      if (ready && b.output.None?) || after.None? {
        return false;
      }
      inputChainIndex, engine := after.value, Indexed(b);
      past := past.(accepted := past.accepted[chain.Height(b.input) := b.input]);
      ok := true;
    }

    /** Sends the block down the queue once ready; the send waits for room. */
    method QueueAccept(b: StatefulBlock)
      requires Valid() && engine == Indexed(b) && (ready ==> |acceptedQueue| < ACCEPTED_QUEUE_SIZE)
      modifies this`acceptedQueue, this`engine, this`past
      ensures Valid() && S() == AcceptQueue(old(S()), b)
    {
      if ready {
        acceptedQueue := acceptedQueue + [b];
        past := past.(chain := past.chain + [b]);
      }
      engine := Queued(b);
    }

    method RemoveVerified(b: StatefulBlock)
      requires Valid() && engine == Queued(b)
      modifies this`verifiedBlocks, this`engine
      ensures Valid() && S() == AcceptRemove(W(), old(S()), b)
    {
      verifiedBlocks := verifiedBlocks - {b.input};
      engine := Removed(b);
    }

    method SetLastAccepted(b: StatefulBlock)
      requires b in live
      modifies this`lastAcceptedBlock, this`acceptedBlocksByHeight, this`acceptedBlocksByID
      ensures S() == Spec.SetLastAccepted(W(), old(S()), b)
    {
      hide OutputsOf, AcceptedsOf;
      lastAcceptedBlock := b;
      acceptedBlocksByHeight := acceptedBlocksByHeight.Put(chain.Height(b.input), b.input);
      acceptedBlocksByID := acceptedBlocksByID.Put(b.input, b);
    }

    /** Accept when the accepter does not run in between and the queue has room. */
    method Accept(b: StatefulBlock, after: Option<Index>) returns (ok: bool)
      requires Valid() && b in live && engine == Idle && (ready ==> |acceptedQueue| < ACCEPTED_QUEUE_SIZE)
      modifies this
      ensures ok == ((old(ready) ==> old(b.output).Some?) && after.Some?)
      ensures S() == if ok then AcceptSet(W(), AcceptRemove(W(), AcceptQueue(AcceptIndex(W(), old(S()), b, after.value), b), b), b)
                     else old(S())
    {
      ok := UpdateIndex(b, after);
      if ok {
        QueueAccept(b);
        RemoveVerified(b);
        Settle(b);
      }
    }

    /** The end of Accept. */
    method Settle(b: StatefulBlock)
      requires b in live
      modifies this`lastAcceptedBlock, this`acceptedBlocksByHeight, this`acceptedBlocksByID, this`engine
      ensures S() == AcceptSet(W(), old(S()), b)
    {
      SetLastAccepted(b);
      engine := Idle;
    }

    /** The accepter takes the next block off the queue. */
    method TakeAccepted()
      requires Valid() && accepter == Waiting && acceptedQueue != []
      modifies this`acceptedQueue, this`accepter
      ensures Valid() && S() == Dequeue(old(S()))
    {
      accepter, acceptedQueue := Holding(acceptedQueue[0]), acceptedQueue[1..];
    }

    method SetAccepted(b: StatefulBlock, accepted: Accepted)
      requires b in live
      modifies b`accepted
      ensures S() == old(S()).(accepteds := old(S()).accepteds[b := accepted])
    {
      b.accepted := Some(accepted);
      assert OutputsOf(live) == old(OutputsOf(live));
      assert AcceptedsOf(live) == old(AcceptedsOf(live))[b := accepted];
    }

    /** processAccept up to setLastProcessed. False is a panic. */
    method ProcessAccept(b: StatefulBlock) returns (ok: bool)
      requires Valid() && b in live && accepter == Holding(b) && b.output.Some?
      modifies b`accepted, this`accepter, this`past
      ensures ok == Process(W(), old(S()), b).Some?
      ensures ok ==> Valid() && Some(S()) == Process(W(), old(S()), b)
    {
      var parent := GetBlock(chain.Parent(b.input));
      if parent.None? {
        return false;
      }
      var parentAccepted := parent.value.accepted;
      assert parentAccepted == ParentAccepted(W(), S(), b);
      var accepted := chain.accept(parentAccepted, b.output.value);
      if accepted.None? {
        return false;
      }
      SetAccepted(b, accepted.value);
      accepter := Stored(b);
      past := past.(calls := past.calls + [Call(b.input, parentAccepted)]);
      ok := true;
    }

    method SetLastProcessed(b: StatefulBlock)
      requires Valid() && accepter == Stored(b)
      modifies this`lastProcessedBlock, this`accepter
      ensures Valid() && S() == SetProcessed(old(S()), b)
    {
      lastProcessedBlock, accepter := Some(b), Waiting;
    }

    method Reject(b: StatefulBlock)
      requires Valid() && b in live
      modifies this`verifiedBlocks, this`unresolvedBlocks, this`past
      ensures Valid() && S() == Spec.Reject(W(), old(S()), b)
    {
      verifiedBlocks := verifiedBlocks - {b.input};
      if b.output.None? && unresolvedBlocks.Some? {
        unresolvedBlocks := Some(unresolvedBlocks.value - {b.input});
      }
      past := past.(rejected := past.rejected + {b.input});
    }

    method HealthCheck() returns (healthy: bool)
      ensures healthy == Healthy(S())
    {
      healthy := ready && (unresolvedBlocks.None? || unresolvedBlocks.value == {});
    }

    // ---- State sync --------------------------------------------------------------------------

    /** Leaves normal operation for the sync target held by the new block `b`. */
    method LeaveReady(b: StatefulBlock, after: Index)
      requires b in live || (b.output == None && b.accepted == None)
      modifies this`live, this`inputChainIndex, this`ready, this`past
      ensures S() == old(S()).(
                live := old(live) + {b}, index := after, ready := false,
                past := old(past).(accepted := old(past).accepted[chain.Height(b.input) := b.input],
                                   base := chain.Height(b.input), chain := [], calls := []))
    {
      hide OutputsOf, AcceptedsOf;
      inputChainIndex, ready := after, false;
      Grow(b);
      past := past.(accepted := past.accepted[chain.Height(b.input) := b.input], base := chain.Height(b.input),
                    chain := [], calls := []);
    }

    /** StartStateSync. `after` is what UpdateLastAccepted leaves, or None when it fails. */
    method StartStateSync(target: BlockId, after: Option<Index>) returns (ok: bool)
      modifies this
      ensures ok == after.Some?
      ensures !ok ==> S() == old(S())
      ensures ok ==> lastAcceptedBlock.input == target
                     && S() == Spec.StartStateSync(W(), old(S()), lastAcceptedBlock, after.value)
    {
      if after.None? {
        return false;
      }
      var b := new StatefulBlock.NewInputBlock(target);
      LeaveReady(b, after.value);
      SetLastAccepted(b);
      ok := true;
    }

    /** The processing blocks by height. */
    method SortedByHeight(ids: set<BlockId>) returns (order: seq<BlockId>)
      ensures Sorted(chain, order) && Distinct(order)
      ensures forall id :: id in order <==> id in ids
    {
      order := [];
      var rest := ids;
      while rest != {}
        invariant Sorted(chain, order) && Distinct(order) && rest <= ids
        invariant forall id :: id in order <==> id in ids && id !in rest
        decreases rest
      {
        var id :| id in rest;
        order := Insert(order, id);
        rest := rest - {id};
      }
    }

    method Insert(order: seq<BlockId>, id: BlockId) returns (r: seq<BlockId>)
      requires Sorted(chain, order) && Distinct(order) && id !in order
      ensures Sorted(chain, r) && Distinct(r)
      ensures forall x :: x in r <==> x == id || x in order
    {
      var i := 0;
      while i < |order| && chain.Height(order[i]) <= chain.Height(id)
        invariant i <= |order|
        invariant forall k :: 0 <= k < i ==> chain.Height(order[k]) <= chain.Height(id)
      {
        i := i + 1;
      }
      r := order[..i] + [id] + order[i..];
      InsertedAt(chain, order, id, i);
    }

    /** The loop of verifyProcessingBlocks: the blocks found invalid, or None when a parent is missing. */
    method VerifyProcessingBlocks(order: seq<BlockId>) returns (r: Option<set<BlockId>>)
      requires Valid() && (forall id :: id in order ==> id in verifiedBlocks)
      modifies live`output
      ensures S() == old(S()).(outputs := S().outputs)
      ensures r.Some? == VerifyAll(W(), old(S()), order, {}).Some?
      ensures r.Some? ==> VerifyAll(W(), old(S()), order, {}) == Some((S().outputs, r.value))
    {
      var i, invalid := 0, {};
      assert order[0..] == order;
      while i < |order|
        invariant i <= |order|
        invariant S() == old(S()).(outputs := S().outputs)
        invariant VerifyAll(W(), old(S()), order, {}) == VerifyAll(W(), S(), order[i..], invalid)
      {
        var id := order[i];
        var b := verifiedBlocks[id];
        assert order[i..][0] == id && order[i..][1..] == order[i + 1..];
        var output, missing := Execute(b);
        if missing {
          return None;
        }
        if output.None? {
          invalid := invalid + {id};
        } else {
          SetOutput(b, output.value);
        }
        i := i + 1;
      }
      r := Some(invalid);
    }

    /** The last accepted block with both its forms filled in. False when re-processing fails. */
    method FillLastAccepted(start: Processed) returns (ok: bool)
      requires Valid() && Sound(chain) && Linked(chain, inputChainIndex)
      modifies this`live, this`lastAcceptedBlock, this`acceptedBlocksByHeight, this`acceptedBlocksByID
      modifies lastAcceptedBlock
      ensures Valid() && fresh(live - old(live)) && lastAcceptedBlock.input == old(lastAcceptedBlock).input
      ensures ok == Spec.FillLastAccepted(W(), old(S()), start, lastAcceptedBlock).Some?
      ensures ok ==> Some(S()) == Spec.FillLastAccepted(W(), old(S()), start, lastAcceptedBlock)
      ensures !ok ==> S() == old(S())
    {
      if start.output.id == lastAcceptedBlock.input {
        FillInPlace(start);
        ok := true;
      } else {
        var r, notified := Reprocess(chain, inputChainIndex, lastAcceptedBlock.input, start);
        if r.None? {
          return false;
        }
        var b := new StatefulBlock.NewAcceptedBlock(lastAcceptedBlock.input, r.value.output, r.value.accepted);
        FillWith(b);
        ok := true;
      }
    }

    /** setAccepted on the last accepted block. */
    method FillInPlace(p: Processed)
      requires Valid()
      modifies lastAcceptedBlock
      ensures Valid() && S() == Fill(old(S()), lastAcceptedBlock, p)
    {
      SetOutput(lastAcceptedBlock, p.output);
      SetAccepted(lastAcceptedBlock, p.accepted);
      assert live + {lastAcceptedBlock} == live;
    }

    /** A new block that was processed becomes the last accepted one. */
    method FillWith(b: StatefulBlock)
      requires Valid() && b !in live && b.output.Some? && b.accepted.Some?
      modifies this`live, this`lastAcceptedBlock, this`acceptedBlocksByHeight, this`acceptedBlocksByID
      ensures Valid() && live == old(live) + {b} && lastAcceptedBlock == b
      ensures S() == Spec.SetLastAccepted(W(), Fill(old(S()), b, Processed(b.output.value, b.accepted.value)), b)
    {
      GrowVerified(b);
      SetLastAccepted(b);
    }

    /** Verifies the processing blocks and registers the health check over the invalid ones. */
    method BecomeReady(order: seq<BlockId>) returns (ok: bool)
      requires Valid() && (forall id :: id in order ==> id in verifiedBlocks)
      modifies live`output, this`lastProcessedBlock, this`unresolvedBlocks, this`ready, this`past
      ensures ok == Spec.BecomeReady(W(), old(S()), order).Some?
      ensures ok ==> Some(S()) == Spec.BecomeReady(W(), old(S()), order)
    {
      var invalid := VerifyProcessingBlocks(order);
      if invalid.None? || unresolvedBlocks.Some? {
        return false;
      }
      assert OutputsOf(live) == S().outputs && AcceptedsOf(live) == S().accepteds;
      lastProcessedBlock := Some(lastAcceptedBlock);
      unresolvedBlocks, ready := invalid, true;
      past := past.(chain := [lastAcceptedBlock], calls := []);
      ok := true;
    }

    /** FinishStateSync with both forms of one block. `order` is the order in which the processing blocks
        were verified. */
    method FinishStateSync(start: Processed) returns (ok: bool, order: seq<BlockId>)
      requires Valid() && Sound(chain) && Linked(chain, inputChainIndex)
      modifies this, live
      ensures Sorted(chain, order) && Distinct(order)
      ensures !old(ready) ==> forall id :: id in order <==> id in old(verifiedBlocks)
      ensures forall id :: id in order ==> id in old(S()).processing
      ensures ok == Spec.FinishStateSync(W(), old(S()), start, order, lastAcceptedBlock).Some?
      ensures ok ==> Some(S()) == Spec.FinishStateSync(W(), old(S()), start, order, lastAcceptedBlock)
    {
      if ready {
        return false, [];
      }
      order := SortedByHeight(verifiedBlocks.Keys);
      ok := FillLastAccepted(start);
      if ok {
        ok := BecomeReady(order);
      }
    }
  }
}
