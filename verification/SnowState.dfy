/** The consensus VM as a state machine: what it remembers, and what each of its steps does to that.
    Accept is cut at the points where the asynchronous accepter can run in between. */
module SnowState {
  import opened Bytes
  import opened SnowChain

  const ACCEPTED_QUEUE_SIZE := 16

  /** The chain below the VM, and the input block inside each StatefulBlock. `Ref` stands for
      references to StatefulBlocks, several of which can hold the same input block. */
  datatype World<!Ref> = World(chain: Chain, id: Ref -> BlockId) {
    function Height(b: Ref): nat {
      chain.Height(id(b))
    }

    function Parent(b: Ref): BlockId {
      chain.Parent(id(b))
    }
  }

  /** Where the engine's thread stands in Accept: idle, or past the index write, past the queue, past
      the removal from the processing blocks. */
  datatype Engine<Ref> = Idle | Indexed(b: Ref) | Queued(b: Ref) | Removed(b: Ref)

  /** Where the asynchronous accepter stands: waiting, holding a dequeued block, or holding one that
      the chain has accepted but that is not yet recorded as the last processed one. */
  datatype Accepter<Ref> = Waiting | Holding(b: Ref) | Stored(b: Ref)

  /** One call of AcceptBlock: the block, and the accepted parent it was handed. */
  datatype Call = Call(block: BlockId, parent: Option<Accepted>)

  /** What happened so far. `accepted` is every block ever accepted, by height. The rest is about the
      running process: blocks that entered processing and blocks rejected; `base`, the height at
      which the latest state sync started; `chain`, the blocks accepted since the VM became ready,
      led by the block it became ready at; and the calls of AcceptBlock the accepter made for them. */
  datatype Past<Ref> = Past(
    accepted: map<nat, BlockId>,
    entered: set<BlockId>,
    rejected: set<BlockId>,
    base: nat,
    chain: seq<Ref>,
    calls: seq<Call>)

  /** A block is verified when it has an output, and accepted when it has an accepted form. */
  datatype State<Ref(==)> = State(
    live: set<Ref>,
    outputs: map<Ref, Output>,
    accepteds: map<Ref, Accepted>,
    parsed: map<BlockId, Ref>,
    processing: map<BlockId, Ref>,
    byId: Fifo<BlockId, Ref>,
    byHeight: Fifo<nat, BlockId>,
    queue: seq<Ref>,
    accepter: Accepter<Ref>,
    engine: Engine<Ref>,
    lastAccepted: Ref,
    lastProcessed: Option<Ref>,
    preferred: BlockId,
    ready: bool,
    index: Index,
    unresolved: Option<set<BlockId>>,
    past: Past<Ref>)

  // ---- Looking blocks up ---------------------------------------------------------------------

  datatype Lookup<Ref> = Found(b: Ref) | OnDisk | Missing

  /** GetBlock: the processing blocks, then the cache of accepted blocks, then the disk, which yields
      a fresh block holding only its input. */
  function GetBlock<Ref>(w: World<Ref>, s: State<Ref>, id: BlockId): Lookup<Ref> {
    if id in s.processing then Found(s.processing[id])
    else if id in s.byId.entries then Found(s.byId.entries[id])
    else if s.index.Holds(w.chain, id) then OnDisk
    else Missing
  }

  /** GetBlockIDAtHeight: the last accepted block, then the cache, then the disk. */
  function GetBlockIdAtHeight<Ref>(w: World<Ref>, s: State<Ref>, height: nat): Option<BlockId> {
    if w.Height(s.lastAccepted) == height then Some(w.id(s.lastAccepted))
    else if height in s.byHeight.entries then Some(s.byHeight.entries[height])
    else if height in s.index.blocks then Some(s.index.blocks[height])
    else None
  }

  /** GetBlockByHeight, as the ID it finds and the lookup it ends in. */
  function GetBlockByHeight<Ref>(w: World<Ref>, s: State<Ref>, height: nat): Option<(BlockId, Lookup<Ref>)> {
    if w.Height(s.lastAccepted) == height then Some((w.id(s.lastAccepted), Found(s.lastAccepted)))
    else match GetBlockIdAtHeight(w, s, height)
      case None => None
      case Some(id) =>
        if id in s.byId.entries then Some((id, Found(s.byId.entries[id])))
        else Some((id, GetBlock(w, s, id)))
  }

  /** The output of a block found by ID, if it is in memory and verified. */
  function FoundOutput<Ref>(w: World<Ref>, s: State<Ref>, id: BlockId): Option<Output> {
    match GetBlock(w, s, id)
    case Found(b) => if b in s.outputs then Some(s.outputs[b]) else None
    case _ => None
  }

  // ---- Parsing, building and verifying -------------------------------------------------------

  /** Stores into the cache of parsed blocks, which may evict others. */
  function Cache<Ref>(s: State<Ref>, id: BlockId, b: Ref, evicted: set<BlockId>): State<Ref> {
    s.(live := s.live + {b}, parsed := (s.parsed - evicted)[id := b])
  }

  /** ParseBlock for bytes that hash to `id`; `b` names the block allocated when one is. */
  function ParseBlock<Ref>(w: World<Ref>, s: State<Ref>, id: BlockId, b: Ref, evicted: set<BlockId>): State<Ref> {
    match GetBlock(w, s, id)
    case Found(_) => s
    case OnDisk => s.(live := s.live + {b})
    case Missing => if id in s.parsed then s else Cache(s, id, b, evicted)
  }

  /** buildBlock, given the block the chain built. */
  function BuildBlock<Ref>(s: State<Ref>, output: Output, b: Ref, evicted: set<BlockId>): State<Ref> {
    Cache(s, output.id, b, evicted).(outputs := s.outputs[b := output])
  }

  /** Files a block under the processing blocks. */
  function Track<Ref>(w: World<Ref>, s: State<Ref>, b: Ref): State<Ref> {
    s.(processing := s.processing[w.id(b) := b], past := s.past.(entered := s.past.entered + {w.id(b)}))
  }

  /** The output of a block executed on its parent's output; None when its parent is not in memory or
      not verified, or when it is invalid. */
  function Executed<Ref>(w: World<Ref>, s: State<Ref>, b: Ref): Option<Output> {
    match FoundOutput(w, s, w.Parent(b))
    case None => None
    case Some(parent) => w.chain.verify(parent, w.id(b))
  }

  /** verifyWithContext: vacuous before the VM is ready, skipped for a block built here, and otherwise
      executed on the parent's output. False is an error. */
  function VerifyBlock<Ref>(w: World<Ref>, s: State<Ref>, b: Ref, provided: Option<nat>): (bool, State<Ref>) {
    if !s.ready then (true, Track(w, s, b))
    else if provided != w.chain.header(w.id(b)).context then (false, s)
    else if b in s.outputs then (true, Track(w, s, b))
    else
      match Executed(w, s, b)
      case None => (false, s)
      case Some(output) => (true, Track(w, s.(outputs := s.outputs[b := output]), b))
  }

  // ---- Accepting and rejecting ---------------------------------------------------------------

  /** Accept refuses a block that failed verification after state sync. */
  predicate Refused<Ref>(s: State<Ref>, b: Ref) {
    s.ready && b !in s.outputs
  }

  function AcceptIndex<Ref>(w: World<Ref>, s: State<Ref>, b: Ref, after: Index): State<Ref> {
    s.(index := after, engine := Indexed(b),
       past := s.past.(accepted := s.past.accepted[w.Height(b) := w.id(b)]))
  }

  /** Queues the block when the VM is ready; otherwise only the pre-ready notification goes out. */
  function AcceptQueue<Ref>(s: State<Ref>, b: Ref): State<Ref> {
    if s.ready then
      s.(queue := s.queue + [b], engine := Queued(b), past := s.past.(chain := s.past.chain + [b]))
    else s.(engine := Queued(b))
  }

  function AcceptRemove<Ref>(w: World<Ref>, s: State<Ref>, b: Ref): State<Ref> {
    s.(processing := s.processing - {w.id(b)}, engine := Removed(b))
  }

  /** setLastAccepted: the last accepted block, and both caches. */
  function SetLastAccepted<Ref>(w: World<Ref>, s: State<Ref>, b: Ref): State<Ref> {
    s.(lastAccepted := b, byHeight := s.byHeight.Put(w.Height(b), w.id(b)), byId := s.byId.Put(w.id(b), b))
  }

  function AcceptSet<Ref>(w: World<Ref>, s: State<Ref>, b: Ref): State<Ref> {
    SetLastAccepted(w, s, b).(engine := Idle)
  }

  function Dequeue<Ref>(s: State<Ref>): State<Ref>
    requires s.queue != []
  {
    s.(accepter := Holding(s.queue[0]), queue := s.queue[1..])
  }

  /** The accepted parent the accepter finds: empty for a block read back from disk. */
  function ParentAccepted<Ref>(w: World<Ref>, s: State<Ref>, b: Ref): Option<Accepted> {
    match GetBlock(w, s, w.Parent(b))
    case Found(parent) => if parent in s.accepteds then Some(s.accepteds[parent]) else None
    case _ => None
  }

  /** processAccept up to the notifications. None is a panic of the accepter. */
  function Process<Ref>(w: World<Ref>, s: State<Ref>, b: Ref): Option<State<Ref>> {
    if GetBlock(w, s, w.Parent(b)) == Missing || b !in s.outputs then None
    else
      match w.chain.accept(ParentAccepted(w, s, b), s.outputs[b])
      case None => None
      case Some(accepted) =>
        Some(s.(accepteds := s.accepteds[b := accepted],
                accepter := Stored(b),
                past := s.past.(calls := s.past.calls + [Call(w.id(b), ParentAccepted(w, s, b))])))
  }

  function SetProcessed<Ref>(s: State<Ref>, b: Ref): State<Ref> {
    s.(lastProcessed := Some(b), accepter := Waiting)
  }

  /** Reject: the block leaves processing, and an unverified one is resolved for the health check. */
  function Reject<Ref>(w: World<Ref>, s: State<Ref>, b: Ref): State<Ref> {
    s.(processing := s.processing - {w.id(b)},
       unresolved := if b !in s.outputs && s.unresolved.Some? then Some(s.unresolved.value - {w.id(b)})
                     else s.unresolved,
       past := s.past.(rejected := s.past.rejected + {w.id(b)}))
  }

  /** HealthCheck: healthy when the VM is ready and no invalid block is unresolved. */
  predicate Healthy<Ref>(s: State<Ref>) {
    s.ready && (s.unresolved.Some? ==> s.unresolved.value == {})
  }

  // ---- State sync ----------------------------------------------------------------------------

  /** StartStateSync on the target held by the new block `b`. */
  function StartStateSync<Ref>(w: World<Ref>, s: State<Ref>, b: Ref, after: Index): State<Ref> {
    var t := s.(
      live := s.live + {b}, index := after, ready := false,
      past := s.past.(accepted := s.past.accepted[w.Height(b) := w.id(b)], base := w.Height(b), chain := [], calls := []));
    SetLastAccepted(w, t, b)
  }

  /** Fills in both forms of a block. */
  function Fill<Ref>(s: State<Ref>, b: Ref, p: Processed): State<Ref> {
    s.(live := s.live + {b}, outputs := s.outputs[b := p.output], accepteds := s.accepteds[b := p.accepted])
  }

  /** The last accepted block with both its forms filled in: in place when state sync finished on it,
      and otherwise as the new block `b`, which re-processing up to it gives. */
  function FillLastAccepted<Ref>(w: World<Ref>, s: State<Ref>, start: Processed, b: Ref): Option<State<Ref>>
    requires Linked(w.chain, s.index)
  {
    if start.output.id == w.id(s.lastAccepted) then Some(Fill(s, s.lastAccepted, start))
    else
      match Reprocessed(w.chain, s.index, w.id(s.lastAccepted), start).0
      case None => None
      case Some(p) => Some(SetLastAccepted(w, Fill(s, b, p), b))
  }

  /** verifyProcessingBlocks: the blocks in `order` are executed one after the other; the ones whose
      parent is unverified or that fail are collected. None when a parent is nowhere to be found. */
  function VerifyAll<Ref>(w: World<Ref>, s: State<Ref>, order: seq<BlockId>, invalid: set<BlockId>)
    : Option<(map<Ref, Output>, set<BlockId>)>
    requires forall id :: id in order ==> id in s.processing
    decreases |order|
  {
    if order == [] then Some((s.outputs, invalid))
    else if GetBlock(w, s, w.Parent(s.processing[order[0]])) == Missing then None
    else
      match Executed(w, s, s.processing[order[0]])
      case None => VerifyAll(w, s, order[1..], invalid + {order[0]})
      case Some(output) =>
        VerifyAll(w, s.(outputs := s.outputs[s.processing[order[0]] := output]), order[1..], invalid)
  }

  /** The rest of FinishStateSync once the last accepted block is filled in. */
  function BecomeReady<Ref>(w: World<Ref>, s: State<Ref>, order: seq<BlockId>): Option<State<Ref>>
    requires forall id :: id in order ==> id in s.processing
  {
    match VerifyAll(w, s, order, {})
    case None => None
    case Some((outputs, invalid)) =>
      if s.unresolved.Some? then None
      else
        Some(s.(outputs := outputs, lastProcessed := Some(s.lastAccepted), unresolved := Some(invalid), ready := true,
                past := s.past.(chain := [s.lastAccepted], calls := [])))
  }

  /** FinishStateSync with both forms of one block. None is an error: the VM is already ready, or the
      re-processing fails, or a parent is missing, or an earlier call registered the health check. */
  function FinishStateSync<Ref>(w: World<Ref>, s: State<Ref>, start: Processed, order: seq<BlockId>, b: Ref)
    : Option<State<Ref>>
    requires Linked(w.chain, s.index) && (forall id :: id in order ==> id in s.processing)
  {
    if s.ready then None
    else match FillLastAccepted(w, s, start, b)
      case None => None
      case Some(filled) => BecomeReady(w, filled, order)
  }

  // ---- Starting ------------------------------------------------------------------------------

  /** A process starting on the indexed tip, held by the new block `b`, in the forms given if any. */
  function Fresh<Ref>(
    w: World<Ref>, index: Index, limit: nat, accepted: map<nat, BlockId>, forms: Option<Processed>, b: Ref): State<Ref>
  {
    State(
      {b},
      if forms.Some? then map[b := forms.value.output] else map[],
      if forms.Some? then map[b := forms.value.accepted] else map[],
      map[], map[],
      Fifo(limit, [], map[]).Put(w.id(b), b), Fifo(limit, [], map[]).Put(w.Height(b), w.id(b)),
      [], Waiting, Idle,
      b, if forms.Some? then Some(b) else None, w.id(b), forms.Some?, index, None,
      Past(accepted, {}, {}, index.last, if forms.Some? then [b] else [], []))
  }

  /** makeConsensusIndex on a new VM: with a start state it re-processes up to the indexed tip and is
      ready; without one it waits for state sync. None is an error. */
  function Boot<Ref>(
    w: World<Ref>, index: Index, limit: nat, accepted: map<nat, BlockId>, start: Option<Processed>, b: Ref)
    : Option<State<Ref>>
    requires Linked(w.chain, index)
  {
    if limit == 0 then None
    else match start
      case None => Some(Fresh(w, index, limit, accepted, None, b))
      case Some(p) =>
        match Reprocessed(w.chain, index, w.id(b), p).0
        case None => None
        case forms => Some(Fresh(w, index, limit, accepted, forms, b))
  }
}
