/** What every state of the consensus VM satisfies, at every point between two steps. */
module SnowInvariant {
  import opened Bytes
  import opened SnowChain
  import opened SnowState

  /** The smallest cache that always still holds the parent of the block the accepter works on: the
      queue, the parent and the block in hand. */
  const SAFE_WINDOW := ACCEPTED_QUEUE_SIZE + 2

  predicate Decided(c: Chain, accepted: map<nat, BlockId>, id: BlockId) {
    c.Height(id) in accepted && accepted[c.Height(id)] == id
  }

  /** Blocks are filed under their own IDs. */
  ghost predicate NamesOk<Ref>(w: World<Ref>, live: set<Ref>, files: map<BlockId, Ref>) {
    forall id :: id in files ==> files[id] in live && w.id(files[id]) == id
  }

  ghost predicate AllocOk<Ref>(
    live: set<Ref>, outputs: map<Ref, Output>, accepteds: map<Ref, Accepted>, engine: Engine<Ref>)
  {
    && outputs.Keys <= live
    && accepteds.Keys <= outputs.Keys
    && (engine != Idle ==> engine.b in live)
  }

  /** A verified block carries the fold of VerifyBlock along its ancestors, whichever way it came by it. */
  ghost predicate OutputsOk<Ref>(w: World<Ref>, outputs: map<Ref, Output>) {
    forall r :: r in outputs ==> OutputOf(w.chain, w.id(r)) == Some(outputs[r])
  }

  /** An accepted block carries the fold of AcceptBlock along its ancestors. */
  ghost predicate AcceptedsOk<Ref>(w: World<Ref>, accepteds: map<Ref, Accepted>) {
    forall r :: r in accepteds ==> AcceptedOf(w.chain, w.id(r)) == Some(accepteds[r])
  }

  /** The index ends at the last accepted block, or at the block being accepted on top of it. */
  ghost predicate TipOk<Ref>(
    w: World<Ref>, index: Index, accepted: map<nat, BlockId>, base: nat, lastAccepted: Ref, engine: Engine<Ref>)
  {
    && IndexOk(w.chain, index, accepted)
    && Decided(w.chain, accepted, w.id(lastAccepted))
    && base <= w.Height(lastAccepted)
    && (if engine == Idle then index.last == w.Height(lastAccepted)
        else
          && index.last == w.Height(engine.b) == w.Height(lastAccepted) + 1
          && w.Parent(engine.b) == w.id(lastAccepted)
          && Decided(w.chain, accepted, w.id(engine.b)))
  }

  /** The block being accepted stays among the processing ones until it is removed. */
  ghost predicate FlowOk<Ref>(
    w: World<Ref>, processing: map<BlockId, Ref>, engine: Engine<Ref>, ready: bool, outputs: map<Ref, Output>)
  {
    && (engine.Indexed? || engine.Queued? ==>
          w.id(engine.b) in processing && processing[w.id(engine.b)] == engine.b)
    && (engine != Idle && ready ==> engine.b in outputs)
  }

  ghost predicate Lockstep(c: Chain, ids: seq<BlockId>, heights: seq<nat>) {
    |ids| == |heights| && forall i :: 0 <= i < |ids| ==> heights[i] == c.Height(ids[i])
  }

  /** The two caches hold the same blocks in the same order, all accepted; the last accepted block is
      the newest. */
  ghost predicate CacheOk<Ref>(
    w: World<Ref>, byId: Fifo<BlockId, Ref>, byHeight: Fifo<nat, BlockId>, accepted: map<nat, BlockId>, lastAccepted: Ref)
  {
    && byId.Valid() && byHeight.Valid() && byId.limit == byHeight.limit
    && Lockstep(w.chain, byId.order, byHeight.order)
    && (forall id :: id in byId.entries ==>
          && Decided(w.chain, accepted, id)
          && w.chain.Height(id) <= w.Height(lastAccepted)
          && w.chain.Height(id) in byHeight.entries
          && byHeight.entries[w.chain.Height(id)] == id)
    && byId.order != [] && Aged(byId.order, 0) == w.id(lastAccepted)
    && w.id(lastAccepted) in byId.entries && byId.entries[w.id(lastAccepted)] == lastAccepted
  }

  /** A block is in at most one of: processing, accepted, rejected. Only the block being accepted is
      both processing and accepted, until it is removed. */
  ghost predicate DisjointOk<Ref>(
    w: World<Ref>, processing: map<BlockId, Ref>, accepted: map<nat, BlockId>, rejected: set<BlockId>, engine: Engine<Ref>)
  {
    && (forall id :: id in processing && Decided(w.chain, accepted, id) ==>
          (engine.Indexed? || engine.Queued?) && w.id(engine.b) == id)
    && (forall id :: id in rejected ==> id !in processing && !Decided(w.chain, accepted, id))
  }

  /** A block that entered processing is still there, or was rejected, or was accepted. */
  ghost predicate EnteredOk<Ref>(c: Chain, processing: map<BlockId, Ref>, past: Past<Ref>) {
    forall id :: id in past.entered ==>
      id in processing || id in past.rejected || Decided(c, past.accepted, id)
  }

  // ---- While ready ---------------------------------------------------------------------------

  /** The blocks accepted since the VM became ready: verified, accepted, each the parent of the next. */
  ghost predicate ChainOk<Ref>(
    w: World<Ref>, chain: seq<Ref>, outputs: map<Ref, Output>, accepted: map<nat, BlockId>)
  {
    && chain != []
    && (forall k :: 0 <= k < |chain| ==> chain[k] in outputs && Decided(w.chain, accepted, w.id(chain[k])))
    && (forall k :: 0 < k < |chain| ==>
          && w.Parent(chain[k]) == w.id(chain[k - 1])
          && w.Height(chain[k]) == w.Height(chain[k - 1]) + 1)
  }

  /** The accepter goes through the chain in order: what it has called AcceptBlock on, then the block
      in its hand, then the queue. */
  ghost predicate QueueOk<Ref>(
    w: World<Ref>, chain: seq<Ref>, calls: seq<Call>, queue: seq<Ref>, accepter: Accepter<Ref>,
    lastProcessed: Option<Ref>, accepteds: map<Ref, Accepted>)
  {
    && |queue| <= ACCEPTED_QUEUE_SIZE
    && |calls| < |chain|
    && (forall k :: 0 <= k < |calls| ==> calls[k].block == w.id(chain[k + 1]))
    && (forall k :: 0 <= k <= |calls| ==> chain[k] in accepteds)
    && match accepter
       case Waiting =>
         lastProcessed == Some(chain[|calls|]) && queue == chain[|calls| + 1..]
       case Holding(b) =>
         && |calls| + 1 < |chain| && b == chain[|calls| + 1]
         && lastProcessed == Some(chain[|calls|]) && queue == chain[|calls| + 2..]
       case Stored(b) =>
         && 0 < |calls| && b == chain[|calls|]
         && lastProcessed == Some(chain[|calls| - 1]) && queue == chain[|calls| + 1..]
  }

  /** The blocks of the chain that went through setLastAccepted: all but the one being accepted. */
  function Settled<Ref>(chain: seq<Ref>, engine: Engine<Ref>): seq<Ref> {
    if chain != [] && (engine.Queued? || engine.Removed?) then chain[..|chain| - 1] else chain
  }

  ghost predicate FrontOk<Ref>(chain: seq<Ref>, engine: Engine<Ref>, lastAccepted: Ref) {
    var settled := Settled(chain, engine);
    && settled != []
    && lastAccepted == settled[|settled| - 1]
    && (engine.Queued? || engine.Removed? ==> engine.b == chain[|chain| - 1])
  }

  /** The newest entries of the cache are the newest settled blocks, as many as fit. */
  ghost predicate SettledOk<Ref>(w: World<Ref>, settled: seq<Ref>, byId: Fifo<BlockId, Ref>) {
    forall k :: 0 <= k < |settled| && |settled| - k <= byId.limit ==> CachedAt(w, byId, settled[k], |settled| - 1 - k)
  }

  /** The block is in the cache, as the entry stored `age` new entries ago. */
  ghost predicate CachedAt<Ref>(w: World<Ref>, byId: Fifo<BlockId, Ref>, b: Ref, age: nat) {
    && age < |byId.order| && Aged(byId.order, age) == w.id(b)
    && w.id(b) in byId.entries && byId.entries[w.id(b)] == b
  }

  /** Once state sync has finished, the unresolved blocks are the unverified processing ones. */
  ghost predicate UnresolvedOk<Ref>(
    processing: map<BlockId, Ref>, outputs: map<Ref, Output>, unresolved: Option<set<BlockId>>)
  {
    forall id ::
      (unresolved.Some? && id in unresolved.value) <==> (id in processing && processing[id] !in outputs)
  }

  /** Every call of AcceptBlock was given the fold of AcceptBlock along the parent's ancestors. */
  ghost predicate CallsOk<Ref>(w: World<Ref>, chain: seq<Ref>, calls: seq<Call>) {
    |calls| <= |chain| && forall k :: 0 <= k < |calls| ==>
      calls[k].parent.Some? && calls[k].parent == AcceptedOf(w.chain, w.id(chain[k]))
  }

  // ---- While state sync is under way ---------------------------------------------------------

  ghost predicate IdleOk<Ref>(s: State<Ref>) {
    s.queue == [] && s.accepter == Waiting && s.past.chain == [] && s.past.calls == []
  }

  /** Nothing that was accepted since the sync started, and nothing in processing, is verified. */
  ghost predicate VacuousOk<Ref>(
    w: World<Ref>, outputs: map<Ref, Output>, processing: map<BlockId, Ref>, byId: Fifo<BlockId, Ref>, base: nat)
  {
    && (forall r :: r in outputs ==> w.Height(r) <= base)
    && (forall id :: id in processing ==> processing[id] !in outputs && 0 < w.chain.Height(id))
    && (forall id :: id in byId.entries && base <= w.chain.Height(id) ==> byId.entries[id] !in outputs)
  }

  /** A processing block's parent is processing, or rejected, or was accepted since the sync started. */
  ghost predicate TreeOk<Ref>(
    c: Chain, processing: map<BlockId, Ref>, accepted: map<nat, BlockId>, rejected: set<BlockId>, base: nat)
  {
    forall id :: id in processing ==>
      || c.Parent(id) in processing
      || c.Parent(id) in rejected
      || (Decided(c, accepted, c.Parent(id)) && base <= c.Height(c.Parent(id)))
  }

  // ---- The invariant -------------------------------------------------------------------------

  /** The invariant clause by clause, so that a proof can take up only the clauses it needs. */
  datatype Clause =
    | Live | ParsedNames | ProcessingNames | AcceptedNames | Outputs | Tip | Flow | Caches | Disjoint | Entered
    | Chained | Pipeline | Front | Recent | Unresolved
    | Still | Vacuous | Tree
    | Accepteds | Calls

  ghost predicate Holds<Ref>(w: World<Ref>, s: State<Ref>, clause: Clause) {
    match clause
    case Live => AllocOk(s.live, s.outputs, s.accepteds, s.engine)
    case ParsedNames => NamesOk(w, s.live, s.parsed)
    case ProcessingNames => NamesOk(w, s.live, s.processing)
    case AcceptedNames => NamesOk(w, s.live, s.byId.entries)
    case Outputs => OutputsOk(w, s.outputs)
    case Tip => TipOk(w, s.index, s.past.accepted, s.past.base, s.lastAccepted, s.engine)
    case Flow => FlowOk(w, s.processing, s.engine, s.ready, s.outputs)
    case Caches => CacheOk(w, s.byId, s.byHeight, s.past.accepted, s.lastAccepted)
    case Disjoint => DisjointOk(w, s.processing, s.past.accepted, s.past.rejected, s.engine)
    case Entered => EnteredOk(w.chain, s.processing, s.past)
    case Chained => s.ready ==> ChainOk(w, s.past.chain, s.outputs, s.past.accepted)
    case Pipeline => s.ready ==>
      QueueOk(w, s.past.chain, s.past.calls, s.queue, s.accepter, s.lastProcessed, s.accepteds)
    case Front => s.ready ==> FrontOk(s.past.chain, s.engine, s.lastAccepted)
    case Recent => s.ready ==> SettledOk(w, Settled(s.past.chain, s.engine), s.byId)
    case Unresolved => s.ready ==> UnresolvedOk(s.processing, s.outputs, s.unresolved)
    case Still => !s.ready ==> IdleOk(s)
    case Vacuous => !s.ready ==> VacuousOk(w, s.outputs, s.processing, s.byId, s.past.base)
    case Tree => !s.ready ==> TreeOk(w.chain, s.processing, s.past.accepted, s.past.rejected, s.past.base)
    case Accepteds => SAFE_WINDOW <= s.byId.limit ==> AcceptedsOk(w, s.accepteds)
    case Calls => SAFE_WINDOW <= s.byId.limit ==> CallsOk(w, s.past.chain, s.past.calls)
  }

  /** The clauses that a state satisfies. */
  ghost function Kept<Ref>(w: World<Ref>, s: State<Ref>): iset<Clause> {
    iset clause: Clause | Holds(w, s, clause)
  }

  ghost predicate Inv<Ref>(w: World<Ref>, s: State<Ref>) {
    forall clause: Clause :: clause in Kept(w, s)
  }
}
