/** A cache of accepted blocks that is too small does lose the accepter's parent: a run of the VM, for every
    cache of fewer than eighteen blocks and every chain with seventeen blocks to accept. */
module SnowSmallCache {
  import opened Bytes
  import opened SnowChain
  import opened SnowState
  import opened SnowInvariant
  import opened SnowSteps
  import opened SnowSync
  import opened SnowRuns

  /** Names for new blocks, each of which extends the one before it and verifies. */
  ghost predicate Line<Ref>(w: World<Ref>, refs: seq<Ref>) {
    && refs != []
    && (forall i, j :: 0 <= i < j < |refs| ==> refs[i] != refs[j])
    && (forall k :: 0 < k < |refs| ==> Extends(w, refs[k - 1], refs[k]))
  }

  ghost predicate Extends<Ref>(w: World<Ref>, parent: Ref, b: Ref) {
    && w.Parent(b) == w.id(parent) && w.Height(b) == w.Height(parent) + 1
    && OutputOf(w.chain, w.id(b)).Some?
  }

  /** The VM is ready and idle between steps of accepting the line; the accepter has not called AcceptBlock. */
  ghost predicate Loading<Ref>(w: World<Ref>, s: State<Ref>, refs: seq<Ref>, limit: nat, n: nat, accepted: nat) {
    && n < |refs| && 0 < accepted <= |refs|
    && Inv(w, s) && s.ready && s.byId.limit == limit
    && s.past.rejected == {} && s.past.calls == [] && s.past.chain == refs[..accepted]
    && (forall i :: n < i < |refs| ==> refs[i] !in s.live)
    && (forall id :: id in s.parsed ==> w.chain.Height(id) <= w.Height(refs[n]))
  }

  /** The first n blocks after the one the VM started on are accepted; the accepter holds the first. */
  ghost predicate Loaded<Ref>(w: World<Ref>, s: State<Ref>, refs: seq<Ref>, limit: nat, n: nat) {
    && Loading(w, s, refs, limit, n, n + 1)
    && s.engine == Idle && s.processing == map[] && s.lastAccepted == refs[n]
    && s.accepter == if n == 0 then Waiting else Holding(refs[1])
  }

  /** A run after one more step in front of it. */
  lemma RunFirst<Ref>(w: World<Ref>, s: State<Ref>, step: Step<Ref>, rest: seq<Step<Ref>>)
    requires May(w, s, step) && Run(w, Do(w, s, step), rest)
    ensures Run(w, s, [step] + rest) && End(w, s, [step] + rest) == End(w, Do(w, s, step), rest)
  {
    assert ([step] + rest)[0] == step && ([step] + rest)[1..] == rest;
  }

  // ---- Accepting one more block --------------------------------------------------------------

  lemma Parses<Ref>(w: World<Ref>, s: State<Ref>, refs: seq<Ref>, limit: nat, n: nat) returns (t: State<Ref>)
    requires Sound(w.chain) && Line(w, refs) && Loaded(w, s, refs, limit, n) && n + 1 < |refs|
    ensures May(w, s, ParseStep(w.id(refs[n + 1]), refs[n + 1], {}))
    ensures t == Do(w, s, ParseStep(w.id(refs[n + 1]), refs[n + 1], {}))
    ensures Loading(w, t, refs, limit, n + 1, n + 1) && refs[n + 1] in t.live && refs[n + 1] !in t.outputs
    ensures t.engine == Idle && t.processing == map[] && t.lastAccepted == refs[n] && t.accepter == s.accepter
  {
    var b := refs[n + 1];
    var step := ParseStep(w.id(b), b, {});
    assert Extends(w, refs[n], b);
    CachedBelow(w, s);
    assert Live in Kept(w, s);
    t := Do(w, s, step);
    StepKeeps(w, s, step);
  }

  lemma Verifies<Ref>(w: World<Ref>, s: State<Ref>, refs: seq<Ref>, limit: nat, n: nat) returns (t: State<Ref>, step: Step<Ref>)
    requires Sound(w.chain) && Line(w, refs) && n + 1 < |refs|
    requires Loading(w, s, refs, limit, n + 1, n + 1) && refs[n + 1] in s.live && refs[n + 1] !in s.outputs
    requires s.engine == Idle && s.processing == map[] && s.lastAccepted == refs[n]
    ensures May(w, s, step) && t == Do(w, s, step)
    ensures Loading(w, t, refs, limit, n + 1, n + 1) && refs[n + 1] in t.outputs
    ensures t.engine == Idle && t.processing == map[w.id(refs[n + 1]) := refs[n + 1]] && t.lastAccepted == refs[n]
    ensures t.accepter == s.accepter
  {
    var b := refs[n + 1];
    step := VerifyStep(b, w.chain.header(w.id(b)).context);
    assert Extends(w, refs[n], b);
    AcceptNeverHides(w, s);
    LastHasOutput(w, s);
    CarriesFolds(w, s, s.lastAccepted);
    t := Do(w, s, step);
    StepKeeps(w, s, step);
  }

  lemma LastHasOutput<Ref>(w: World<Ref>, s: State<Ref>)
    requires Inv(w, s) && s.ready
    ensures s.lastAccepted in s.outputs
  {
    assert Chained in Kept(w, s) && Front in Kept(w, s);
  }

  lemma Indexes<Ref>(w: World<Ref>, s: State<Ref>, refs: seq<Ref>, limit: nat, n: nat) returns (t: State<Ref>, step: Step<Ref>)
    requires Sound(w.chain) && Line(w, refs) && n + 1 < |refs|
    requires Loading(w, s, refs, limit, n + 1, n + 1) && refs[n + 1] in s.outputs
    requires s.engine == Idle && s.processing == map[w.id(refs[n + 1]) := refs[n + 1]] && s.lastAccepted == refs[n]
    ensures May(w, s, step) && t == Do(w, s, step)
    ensures Loading(w, t, refs, limit, n + 1, n + 1) && t.engine == Indexed(refs[n + 1])
    ensures t.processing == s.processing && t.accepter == s.accepter
  {
    var b := refs[n + 1];
    assert Extends(w, refs[n], b);
    var after := Index(s.index.blocks[w.Height(b) := w.id(b)], w.Height(b));
    step := AcceptStep(b, after);
    t := Do(w, s, step);
    StepKeeps(w, s, step);
  }

  lemma Queues<Ref>(w: World<Ref>, s: State<Ref>, refs: seq<Ref>, limit: nat, n: nat) returns (t: State<Ref>)
    requires Sound(w.chain) && n + 1 < |refs| && n <= 16
    requires Loading(w, s, refs, limit, n + 1, n + 1) && s.engine == Indexed(refs[n + 1])
    requires s.processing == map[w.id(refs[n + 1]) := refs[n + 1]]
    requires s.accepter == if n == 0 then Waiting else Holding(refs[1])
    ensures May(w, s, QueueStep) && t == Do(w, s, QueueStep)
    ensures Loading(w, t, refs, limit, n + 1, n + 2) && t.engine == Queued(refs[n + 1])
    ensures t.processing == s.processing && t.accepter == s.accepter
  {
    assert Pipeline in Kept(w, s);
    t := Do(w, s, QueueStep);
    StepKeeps(w, s, QueueStep);
    assert refs[..n + 2] == refs[..n + 1] + [refs[n + 1]];
  }

  lemma Settles<Ref>(w: World<Ref>, s: State<Ref>, refs: seq<Ref>, limit: nat, n: nat) returns (t: State<Ref>)
    requires Sound(w.chain) && n + 1 < |refs|
    requires Loading(w, s, refs, limit, n + 1, n + 2) && s.engine == Queued(refs[n + 1])
    requires s.processing == map[w.id(refs[n + 1]) := refs[n + 1]]
    ensures May(w, s, RemoveStep) && May(w, Do(w, s, RemoveStep), SetStep)
    ensures t == Do(w, Do(w, s, RemoveStep), SetStep)
    ensures Loading(w, t, refs, limit, n + 1, n + 2) && t.engine == Idle && t.processing == map[]
    ensures t.lastAccepted == refs[n + 1] && t.accepter == s.accepter
  {
    var u := Do(w, s, RemoveStep);
    StepKeeps(w, s, RemoveStep);
    t := Do(w, u, SetStep);
    StepKeeps(w, u, SetStep);
    assert u.processing == map[];
  }

  lemma Takes<Ref>(w: World<Ref>, s: State<Ref>, refs: seq<Ref>, limit: nat) returns (t: State<Ref>)
    requires Sound(w.chain) && 1 < |refs| && Loading(w, s, refs, limit, 1, 2)
    requires s.engine == Idle && s.processing == map[] && s.lastAccepted == refs[1] && s.accepter == Waiting
    ensures May(w, s, DequeueStep) && t == Do(w, s, DequeueStep) && Loaded(w, t, refs, limit, 1)
  {
    assert Pipeline in Kept(w, s);
    assert refs[..2][1..] == [refs[1]];
    t := Do(w, s, DequeueStep);
    StepKeeps(w, s, DequeueStep);
  }

  /** Taking the first block off the queue in front of a run, when there is nothing in hand yet. */
  lemma TakesFirst<Ref>(w: World<Ref>, s: State<Ref>, refs: seq<Ref>, limit: nat, n: nat) returns (t: State<Ref>, steps: seq<Step<Ref>>)
    requires Sound(w.chain) && n + 1 < |refs| && Loading(w, s, refs, limit, n + 1, n + 2)
    requires s.engine == Idle && s.processing == map[] && s.lastAccepted == refs[n + 1]
    requires s.accepter == if n == 0 then Waiting else Holding(refs[1])
    ensures Loaded(w, t, refs, limit, n + 1) && |steps| <= 1
    ensures if steps == [] then t == s else May(w, s, steps[0]) && t == Do(w, s, steps[0])
  {
    if n == 0 {
      t := Takes(w, s, refs, limit);
      steps := [DequeueStep];
    } else {
      t, steps := s, [];
    }
  }

  /** The rest of the line, block by block: parsed, verified and accepted; the accepter takes the first one. */
  lemma {:induction false} LoadsFrom<Ref>(w: World<Ref>, s: State<Ref>, refs: seq<Ref>, limit: nat, n: nat) returns (steps: seq<Step<Ref>>)
    requires Sound(w.chain) && Line(w, refs) && n < |refs| <= 18 && Loaded(w, s, refs, limit, n)
    ensures Run(w, s, steps) && Loaded(w, End(w, s, steps), refs, limit, |refs| - 1)
    decreases |refs| - n, 2
  {
    if n == |refs| - 1 {
      steps := [];
    } else {
      steps := LoadsBlock(w, s, refs, limit, n);
    }
  }

  lemma {:induction false} LoadsBlock<Ref>(w: World<Ref>, s: State<Ref>, refs: seq<Ref>, limit: nat, n: nat) returns (steps: seq<Step<Ref>>)
    requires Sound(w.chain) && Line(w, refs) && n + 1 < |refs| <= 18 && Loaded(w, s, refs, limit, n)
    ensures Run(w, s, steps) && Loaded(w, End(w, s, steps), refs, limit, |refs| - 1)
    decreases |refs| - n, 1
  {
    var parse := ParseStep(w.id(refs[n + 1]), refs[n + 1], {});
    var s1 := Parses(w, s, refs, limit, n);
    var s2, verify := Verifies(w, s1, refs, limit, n);
    var s3, accept := Indexes(w, s2, refs, limit, n);
    steps := LoadsIndexed(w, s3, refs, limit, n);
    RunFirst(w, s2, accept, steps);
    RunFirst(w, s1, verify, [accept] + steps);
    RunFirst(w, s, parse, [verify] + ([accept] + steps));
    steps := [parse] + ([verify] + ([accept] + steps));
  }

  /** The rest of the line from where a block is in the index. */
  lemma {:induction false} LoadsIndexed<Ref>(w: World<Ref>, s: State<Ref>, refs: seq<Ref>, limit: nat, n: nat) returns (steps: seq<Step<Ref>>)
    requires Sound(w.chain) && Line(w, refs) && n + 1 < |refs| <= 18
    requires Loading(w, s, refs, limit, n + 1, n + 1) && s.engine == Indexed(refs[n + 1])
    requires s.processing == map[w.id(refs[n + 1]) := refs[n + 1]]
    requires s.accepter == if n == 0 then Waiting else Holding(refs[1])
    ensures Run(w, s, steps) && Loaded(w, End(w, s, steps), refs, limit, |refs| - 1)
    decreases |refs| - n, 0
  {
    var s1 := Queues(w, s, refs, limit, n);
    var s2 := Settles(w, s1, refs, limit, n);
    var s3, take := TakesFirst(w, s2, refs, limit, n);
    steps := LoadsFrom(w, s3, refs, limit, n + 1);
    if take != [] {
      RunFirst(w, s2, take[0], steps);
      steps := [take[0]] + steps;
    }
    RunFirst(w, Do(w, s1, RemoveStep), SetStep, steps);
    RunFirst(w, s1, RemoveStep, [SetStep] + steps);
    RunFirst(w, s, QueueStep, [RemoveStep] + ([SetStep] + steps));
    steps := [QueueStep] + ([RemoveStep] + ([SetStep] + steps));
  }

  // ---- From a start --------------------------------------------------------------------------

  lemma BootIsLoaded<Ref>(
    w: World<Ref>, index: Index, limit: nat, accepted: map<nat, BlockId>, start: Processed, refs: seq<Ref>)
    requires Sound(w.chain) && IndexOk(w.chain, index, accepted) && refs != []
    requires MayBoot(w, index, Some(start), refs[0]) && Boot(w, index, limit, accepted, Some(start), refs[0]).Some?
    requires forall i :: 0 < i < |refs| ==> refs[i] != refs[0]
    ensures Loaded(w, Boot(w, index, limit, accepted, Some(start), refs[0]).value, refs, limit, 0)
  {
    BootKeeps(w, index, limit, accepted, Some(start), refs[0]);
    assert refs[..1] == [refs[0]];
  }

  lemma FullQueueLosesParent<Ref>(w: World<Ref>, t: State<Ref>, refs: seq<Ref>, limit: nat)
    requires |refs| == 18 && limit < 18
    requires Loaded(w, t, refs, limit, 17)
    ensures t.accepter == Holding(refs[1]) && t.engine == Idle && |t.queue| == 16
    ensures !GetBlock(w, t, w.Parent(refs[1])).Found? && ParentAccepted(w, t, refs[1]) == None
  {
    assert Pipeline in Kept(w, t);
    EighteenSuffice(w, t, refs[1]);
  }

  /** A process that starts with a cache of fewer than eighteen blocks, and is given seventeen blocks to verify
      and accept while the accepter is busy with the first, no longer finds that block's parent: AcceptBlock
      would be handed an empty one. With eighteen this never happens in any run. */
  lemma SmallCacheLosesParent<Ref>(
    w: World<Ref>, index: Index, limit: nat, accepted: map<nat, BlockId>, start: Processed, refs: seq<Ref>)
    returns (steps: seq<Step<Ref>>)
    requires Sound(w.chain) && IndexOk(w.chain, index, accepted) && limit < 18
    requires Line(w, refs) && |refs| == 18
    requires MayBoot(w, index, Some(start), refs[0]) && Boot(w, index, limit, accepted, Some(start), refs[0]).Some?
    ensures var s := Boot(w, index, limit, accepted, Some(start), refs[0]).value;
            && Run(w, s, steps)
            && var t := End(w, s, steps);
               && t.accepter == Holding(refs[1]) && t.engine == Idle && |t.queue| == 16
               && !GetBlock(w, t, w.Parent(refs[1])).Found? && ParentAccepted(w, t, refs[1]) == None
  {
    var s := Boot(w, index, limit, accepted, Some(start), refs[0]).value;
    BootIsLoaded(w, index, limit, accepted, start, refs);
    steps := LoadsFrom(w, s, refs, limit, 0);
    FullQueueLosesParent(w, End(w, s, steps), refs, limit);
  }
}
