/** State sync: entering it, and what finishing it decides about every block still processing. */
module SnowSync {
  import opened Bytes
  import opened SnowChain
  import opened SnowState
  import opened SnowInvariant
  import opened SnowSteps

  // ---- Starting ------------------------------------------------------------------------------

  /** Storing the last accepted block again, as a fresh block, only replaces its entry. */
  lemma CachesRefresh<Ref>(
    w: World<Ref>, byId: Fifo<BlockId, Ref>, byHeight: Fifo<nat, BlockId>, accepted: map<nat, BlockId>,
    lastAccepted: Ref, b: Ref)
    requires CacheOk(w, byId, byHeight, accepted, lastAccepted) && w.id(b) == w.id(lastAccepted)
    ensures CacheOk(w, byId.Put(w.id(b), b), byHeight.Put(w.Height(b), w.id(b)), accepted, b)
    ensures byId.Put(w.id(b), b).order == byId.order
  {
    PutKeepsValid(byId, w.id(b), b);
    PutKeepsValid(byHeight, w.Height(b), w.id(b));
  }

  /** setLastAccepted on a new block of the accepted chain, not below the last one. */
  lemma CachesMove<Ref>(
    w: World<Ref>, byId: Fifo<BlockId, Ref>, byHeight: Fifo<nat, BlockId>, accepted: map<nat, BlockId>,
    lastAccepted: Ref, b: Ref)
    requires CacheOk(w, byId, byHeight, accepted, lastAccepted) && Decided(w.chain, accepted, w.id(b))
    requires w.Height(lastAccepted) <= w.Height(b)
    requires w.Height(lastAccepted) == w.Height(b) ==> w.id(b) == w.id(lastAccepted)
    ensures CacheOk(w, byId.Put(w.id(b), b), byHeight.Put(w.Height(b), w.id(b)), accepted, b)
  {
    if w.Height(lastAccepted) == w.Height(b) {
      CachesRefresh(w, byId, byHeight, accepted, lastAccepted, b);
    } else {
      CachesAdvance(w, byId, byHeight, accepted, lastAccepted, b);
    }
  }

  lemma StartSyncGrows<Ref>(w: World<Ref>, s: State<Ref>, b: Ref, after: Index)
    requires Inv(w, s) && MayStartSync(w, s, b, after)
    ensures IndexOk(w.chain, after, s.past.accepted[w.Height(b) := w.id(b)])
    ensures forall id :: Decided(w.chain, s.past.accepted, id) ==>
              Decided(w.chain, s.past.accepted[w.Height(b) := w.id(b)], id)
    ensures forall id :: Decided(w.chain, s.past.accepted[w.Height(b) := w.id(b)], id) ==>
              id == w.id(b) || Decided(w.chain, s.past.accepted, id)
  {
    assert Tip in Kept(w, s);
    RecordsKeepsIndex(w.chain, s.index, s.past.accepted, w.id(b), after);
  }

  /** The caches hold accepted blocks also after one more was accepted, and then that one too. */
  lemma CachesStart<Ref>(
    w: World<Ref>, byId: Fifo<BlockId, Ref>, byHeight: Fifo<nat, BlockId>, before: map<nat, BlockId>,
    accepted: map<nat, BlockId>, lastAccepted: Ref, b: Ref)
    requires CacheOk(w, byId, byHeight, before, lastAccepted) && Decided(w.chain, accepted, w.id(b))
    requires forall id :: Decided(w.chain, before, id) ==> Decided(w.chain, accepted, id)
    requires w.Height(lastAccepted) <= w.Height(b)
    requires w.Height(lastAccepted) == w.Height(b) ==> w.id(b) == w.id(lastAccepted)
    ensures CacheOk(w, byId.Put(w.id(b), b), byHeight.Put(w.Height(b), w.id(b)), accepted, b)
  {
    assert CacheOk(w, byId, byHeight, accepted, lastAccepted);
    CachesMove(w, byId, byHeight, accepted, lastAccepted, b);
  }

  lemma StartSyncKeepsCaches<Ref>(w: World<Ref>, s: State<Ref>, b: Ref, after: Index)
    requires Inv(w, s) && MayStartSync(w, s, b, after)
    ensures Caches in Kept(w, StartStateSync(w, s, b, after))
  {
    StartSyncGrows(w, s, b, after);
    assert Caches in Kept(w, s);
    CachesStart(w, s.byId, s.byHeight, s.past.accepted, s.past.accepted[w.Height(b) := w.id(b)], s.lastAccepted, b);
  }

  /** What was verified before lies at or below the block state sync starts on, and that block is new. */
  lemma VacuousStarts<Ref>(w: World<Ref>, outputs: map<Ref, Output>, byId: Fifo<BlockId, Ref>, b: Ref)
    requires byId.Valid() && b !in outputs
    requires forall r :: r in outputs ==> w.Height(r) <= w.Height(b)
    requires forall id :: id in byId.entries ==> id == w.id(b) || w.chain.Height(id) < w.Height(b)
    ensures VacuousOk(w, outputs, map[], byId.Put(w.id(b), b), w.Height(b))
  {
    PutKeepsValid(byId, w.id(b), b);
  }

  /** The last accepted block is the highest of the cached ones. */
  lemma CachedBelow<Ref>(w: World<Ref>, s: State<Ref>)
    requires Inv(w, s)
    ensures s.byId.Valid()
    ensures forall id :: id in s.byId.entries ==>
              id == w.id(s.lastAccepted) || w.chain.Height(id) < w.Height(s.lastAccepted)
  {
    assert Caches in Kept(w, s);
  }

  lemma StartSyncKeepsVacuous<Ref>(w: World<Ref>, s: State<Ref>, b: Ref, after: Index)
    requires Inv(w, s) && MayStartSync(w, s, b, after)
    ensures Vacuous in Kept(w, StartStateSync(w, s, b, after))
  {
    CachedBelow(w, s);
    assert Live in Kept(w, s);
    VacuousStarts(w, s.outputs, s.byId, b);
  }

  lemma StartSyncKeepsNames<Ref>(w: World<Ref>, s: State<Ref>, b: Ref, after: Index)
    requires Inv(w, s) && MayStartSync(w, s, b, after)
    ensures AcceptedNames in Kept(w, StartStateSync(w, s, b, after))
  {
    CachedBelow(w, s);
    assert AcceptedNames in Kept(w, s);
    NamesAdvance(w, s.live + {b}, s.byId, b);
  }

  lemma StartSyncKeeps<Ref>(w: World<Ref>, s: State<Ref>, b: Ref, after: Index)
    requires Inv(w, s) && MayStartSync(w, s, b, after)
    ensures Inv(w, StartStateSync(w, s, b, after))
  {
    var t := StartStateSync(w, s, b, after);
    forall clause: Clause ensures clause in Kept(w, t) {
      if clause == Caches {
        StartSyncKeepsCaches(w, s, b, after);
      } else if clause == Vacuous {
        StartSyncKeepsVacuous(w, s, b, after);
      } else if clause == AcceptedNames {
        StartSyncKeepsNames(w, s, b, after);
      } else if clause in {Tip, Disjoint, Entered, Tree} {
        StartSyncKeepsDecided(w, s, b, after, clause);
      } else {
        StartSyncKeepsRest(w, s, b, after, clause);
      }
    }
  }

  lemma StartSyncKeepsDecided<Ref>(w: World<Ref>, s: State<Ref>, b: Ref, after: Index, clause: Clause)
    requires Inv(w, s) && MayStartSync(w, s, b, after)
    requires clause in {Tip, Disjoint, Entered, Tree}
    ensures clause in Kept(w, StartStateSync(w, s, b, after))
  {
    StartSyncGrows(w, s, b, after);
    assert clause in Kept(w, s);
  }

  lemma StartSyncKeepsRest<Ref>(w: World<Ref>, s: State<Ref>, b: Ref, after: Index, clause: Clause)
    requires Inv(w, s) && MayStartSync(w, s, b, after)
    requires clause !in {Caches, Vacuous, AcceptedNames, Tip, Disjoint, Entered, Tree}
    ensures clause in Kept(w, StartStateSync(w, s, b, after))
  {
    hide CacheOk, VacuousOk, ChainOk, QueueOk, FrontOk, SettledOk, UnresolvedOk, OutputsOk, AcceptedsOk;
    assert clause in Kept(w, s);
    assert s.byId.Put(w.id(b), b).limit == s.byId.limit;
  }

  // ---- Finishing: the processing blocks ------------------------------------------------------

  /** The whole path from the last accepted block to `id` runs through processing blocks and verifies. */
  ghost predicate PathOk(c: Chain, processing: iset<BlockId>, last: BlockId, id: BlockId)
    decreases c.Height(id)
  {
    && id in processing
    && OutputOf(c, id).Some?
    && (c.Parent(id) == last
        || (c.Height(c.Parent(id)) < c.Height(id) && PathOk(c, processing, last, c.Parent(id))))
  }

  ghost function Processing<Ref>(s: State<Ref>): iset<BlockId> {
    iset id | id in s.processing
  }

  /** The last accepted block is verified, and a processing block's parent is that block, or another
      processing one, or nowhere to be found verified. */
  ghost predicate Rooted<Ref>(w: World<Ref>, s: State<Ref>) {
    var last := w.id(s.lastAccepted);
    && NamesOk(w, s.live, s.processing) && NamesOk(w, s.live, s.byId.entries) && OutputsOk(w, s.outputs)
    && last !in s.processing && FoundOutput(w, s, last).Some?
    && (forall id :: id in s.processing ==>
          && 0 < w.chain.Height(id)
          && (w.chain.Parent(id) == last || w.chain.Parent(id) in s.processing
              || FoundOutput(w, s, w.chain.Parent(id)) == None))
  }

  ghost predicate Ordered(c: Chain, order: seq<BlockId>, processing: iset<BlockId>) {
    && Sorted(c, order) && Distinct(order)
    && (forall id :: id in order ==> id in processing)
    && (forall id, i :: id in processing && id !in order && 0 <= i < |order| ==> c.Height(id) <= c.Height(order[i]))
  }

  /** The blocks no longer in `order` are verified exactly when their path verifies; those in it are
      not verified yet; and `invalid` is what was found not to verify. */
  ghost predicate Swept<Ref>(w: World<Ref>, s: State<Ref>, order: seq<BlockId>, invalid: set<BlockId>) {
    && (forall id :: id in s.processing && id !in order ==>
          (s.processing[id] in s.outputs <==> PathOk(w.chain, Processing(s), w.id(s.lastAccepted), id)))
    && (forall id :: id in s.processing && id in order ==> s.processing[id] !in s.outputs)
    && (forall id :: id in invalid <==> id in s.processing && id !in order && s.processing[id] !in s.outputs)
  }

  ghost predicate Progress<Ref>(w: World<Ref>, s: State<Ref>, order: seq<BlockId>, invalid: set<BlockId>) {
    Rooted(w, s) && Ordered(w.chain, order, Processing(s)) && Swept(w, s, order, invalid)
  }

  /** The next block executes exactly when its whole path verifies. */
  lemma NextExecutes<Ref>(w: World<Ref>, s: State<Ref>, order: seq<BlockId>, invalid: set<BlockId>)
    requires Sound(w.chain) && order != [] && Progress(w, s, order, invalid) && order[0] in s.processing
    ensures Executed(w, s, s.processing[order[0]]).Some? <==>
              PathOk(w.chain, Processing(s), w.id(s.lastAccepted), order[0])
  {
    var id, last := order[0], w.id(s.lastAccepted);
    var parent := w.chain.Parent(id);
    FoundIsFold(w, s, parent);
    assert id in s.processing;
    assert w.id(s.processing[id]) == id;
    assert id != w.chain.genesis;
    if parent != last && parent in s.processing {
      if parent in order {
        var i :| 0 <= i < |order| && order[i] == parent;
        assert w.chain.Height(order[0]) <= w.chain.Height(order[i]);
        assert FoundOutput(w, s, parent) == None;
      } else {
        assert w.chain.Height(parent) <= w.chain.Height(order[0]);
      }
    }
  }

  lemma OrderAdvances(c: Chain, order: seq<BlockId>, processing: iset<BlockId>)
    requires order != [] && Ordered(c, order, processing)
    ensures Ordered(c, order[1..], processing)
    ensures forall x :: x in order[1..] <==> x in order && x != order[0]
  {
    assert order == [order[0]] + order[1..];
    forall x ensures x in order[1..] <==> x in order && x != order[0] {
      if x in order && x != order[0] {
        var i :| 0 <= i < |order| && order[i] == x;
        assert order[1..][i - 1] == x;
      }
    }
  }

  lemma RootedAdvances<Ref>(w: World<Ref>, s: State<Ref>, id: BlockId, output: Output)
    requires Rooted(w, s) && id in s.processing && OutputOf(w.chain, id) == Some(output)
    ensures Rooted(w, s.(outputs := s.outputs[s.processing[id] := output]))
  {
  }

  lemma SweptSkips<Ref>(
    w: World<Ref>, s: State<Ref>, order: seq<BlockId>, invalid: set<BlockId>, rest: seq<BlockId>)
    requires order != [] && Swept(w, s, order, invalid) && order[0] in s.processing
    requires forall x :: x in rest <==> x in order && x != order[0]
    requires !PathOk(w.chain, Processing(s), w.id(s.lastAccepted), order[0])
    ensures Swept(w, s, rest, invalid + {order[0]})
  {
  }

  lemma SweptExecutes<Ref>(
    w: World<Ref>, s: State<Ref>, order: seq<BlockId>, invalid: set<BlockId>, rest: seq<BlockId>, output: Output)
    requires order != [] && Swept(w, s, order, invalid) && order[0] in s.processing
    requires NamesOk(w, s.live, s.processing) && (forall x :: x in rest <==> x in order && x != order[0])
    requires PathOk(w.chain, Processing(s), w.id(s.lastAccepted), order[0])
    ensures Swept(w, s.(outputs := s.outputs[s.processing[order[0]] := output]), rest, invalid)
  {
    assert Processing(s.(outputs := s.outputs[s.processing[order[0]] := output])) == Processing(s);
  }

  lemma ProgressSkips<Ref>(w: World<Ref>, s: State<Ref>, order: seq<BlockId>, invalid: set<BlockId>)
    requires Sound(w.chain) && order != [] && Progress(w, s, order, invalid) && order[0] in s.processing
    requires Executed(w, s, s.processing[order[0]]).None?
    ensures Progress(w, s, order[1..], invalid + {order[0]})
  {
    NextExecutes(w, s, order, invalid);
    OrderAdvances(w.chain, order, Processing(s));
    SweptSkips(w, s, order, invalid, order[1..]);
  }

  lemma ProgressExecutes<Ref>(w: World<Ref>, s: State<Ref>, order: seq<BlockId>, invalid: set<BlockId>, output: Output)
    requires Sound(w.chain) && order != [] && Progress(w, s, order, invalid) && order[0] in s.processing
    requires Executed(w, s, s.processing[order[0]]) == Some(output)
    ensures Progress(w, s.(outputs := s.outputs[s.processing[order[0]] := output]), order[1..], invalid)
  {
    NextExecutes(w, s, order, invalid);
    OrderAdvances(w.chain, order, Processing(s));
    SweptExecutes(w, s, order, invalid, order[1..], output);
    ExecutedIsFold(w, s, s.processing[order[0]]);
    RootedAdvances(w, s, order[0], output);
    assert Processing(s.(outputs := s.outputs[s.processing[order[0]] := output])) == Processing(s);
  }

  /** Verifying the processing blocks in height order leaves verified exactly the ones whose whole path
      from the last accepted block verifies, and collects all the others. */
  lemma {:induction false} VerifyAllIsPath<Ref>(w: World<Ref>, s: State<Ref>, order: seq<BlockId>, invalid: set<BlockId>)
    requires Sound(w.chain) && Progress(w, s, order, invalid)
    ensures var r := VerifyAll(w, s, order, invalid);
            r.Some? ==> Progress(w, s.(outputs := r.value.0), [], r.value.1)
    ensures var r := VerifyAll(w, s, order, invalid);
            r.Some? ==> Extends(s.processing, s.outputs, r.value.0)
    decreases |order|
  {
    if order != [] && VerifyAll(w, s, order, invalid).Some? {
      assert order[0] in Processing(s);
      match Executed(w, s, s.processing[order[0]])
      case None =>
        ProgressSkips(w, s, order, invalid);
        VerifyAllIsPath(w, s, order[1..], invalid + {order[0]});
      case Some(output) =>
        ProgressExecutes(w, s, order, invalid, output);
        VerifyAllIsPath(w, s.(outputs := s.outputs[s.processing[order[0]] := output]), order[1..], invalid);
    }
  }

  /** Only processing blocks that had no output get one. */
  ghost predicate Extends<Ref>(processing: map<BlockId, Ref>, before: map<Ref, Output>, after: map<Ref, Output>) {
    && (forall r :: r in before ==> r in after && after[r] == before[r])
    && (forall r :: r in after && r !in before ==> exists id :: id in processing && processing[id] == r)
  }

  // ---- Finishing: the last accepted block ----------------------------------------------------

  /** `f` is `s` with the forms `p` of the last accepted block filled in. */
  ghost predicate Filled<Ref>(w: World<Ref>, s: State<Ref>, f: State<Ref>, p: Processed) {
    var last := f.lastAccepted;
    && f == s.(live := s.live + {last}, lastAccepted := last, byId := f.byId, byHeight := f.byHeight,
               outputs := s.outputs[last := p.output], accepteds := s.accepteds[last := p.accepted])
    && w.id(last) == w.id(s.lastAccepted)
    && f.byId.entries == s.byId.entries[w.id(last) := last]
    && f.byId.limit == s.byId.limit
  }

  /** The forms that state sync ends with for the last accepted block: the ones it was given, or the
      ones that re-processing leads to. */
  function FinalForms<Ref>(w: World<Ref>, s: State<Ref>, start: Processed): Option<Processed>
    requires Linked(w.chain, s.index)
  {
    if start.output.id == w.id(s.lastAccepted) then Some(start)
    else Reprocessed(w.chain, s.index, w.id(s.lastAccepted), start).0
  }

  lemma FinalFormsAreFolds<Ref>(w: World<Ref>, s: State<Ref>, start: Processed)
    requires Sound(w.chain) && Inv(w, s) && s.engine == Idle && Linked(w.chain, s.index)
    requires Consistent(w.chain, start) && Anchored(w.chain, s.index, start.output.id)
    ensures var r := FinalForms(w, s, start);
            r.Some? ==> Consistent(w.chain, r.value) && r.value.output.id == w.id(s.lastAccepted)
  {
    if FinalForms(w, s, start).Some? && start.output.id != w.id(s.lastAccepted) {
      assert Tip in Kept(w, s);
      ReprocessIsFold(w.chain, s.index, s.index.last, start, w.chain.Height(start.output.id), []);
    }
  }

  lemma FillFills<Ref>(w: World<Ref>, s: State<Ref>, start: Processed, b: Ref)
    requires Linked(w.chain, s.index) && FillLastAccepted(w, s, start, b).Some?
    requires CacheOk(w, s.byId, s.byHeight, s.past.accepted, s.lastAccepted)
    requires w.id(b) == w.id(s.lastAccepted)
    ensures FinalForms(w, s, start).Some?
    ensures var f := FillLastAccepted(w, s, start, b).value;
            && Filled(w, s, f, FinalForms(w, s, start).value)
            && CacheOk(w, f.byId, f.byHeight, s.past.accepted, f.lastAccepted)
  {
    if start.output.id == w.id(s.lastAccepted) {
      assert s.byId.entries == s.byId.entries[w.id(s.lastAccepted) := s.lastAccepted];
    } else {
      CachesRefresh(w, s.byId, s.byHeight, s.past.accepted, s.lastAccepted, b);
    }
  }

  /** A parent that is neither the last accepted block nor processing was rejected, or accepted without
      being verified. */
  lemma ParentUnverified<Ref>(w: World<Ref>, s: State<Ref>, f: State<Ref>, p: Processed, id: BlockId)
    requires Filled(w, s, f, p) && id in s.processing
    requires TreeOk(w.chain, s.processing, s.past.accepted, s.past.rejected, s.past.base)
    requires VacuousOk(w, s.outputs, s.processing, s.byId, s.past.base)
    requires NamesOk(w, s.live, s.byId.entries)
    requires forall x :: x in s.byId.entries ==> Decided(w.chain, s.past.accepted, x) && x !in s.past.rejected
    ensures w.chain.Parent(id) == w.id(f.lastAccepted) || w.chain.Parent(id) in s.processing
            || FoundOutput(w, f, w.chain.Parent(id)) == None
  {
    var parent := w.chain.Parent(id);
    if parent != w.id(f.lastAccepted) && parent !in s.processing && parent in s.byId.entries {
      assert f.byId.entries[parent] == s.byId.entries[parent];
    }
  }

  lemma CachedIsDecided<Ref>(w: World<Ref>, s: State<Ref>)
    requires Inv(w, s)
    ensures forall x :: x in s.byId.entries ==> Decided(w.chain, s.past.accepted, x) && x !in s.past.rejected
  {
    assert Caches in Kept(w, s) && Disjoint in Kept(w, s);
  }

  lemma LastNotProcessing<Ref>(w: World<Ref>, s: State<Ref>)
    requires Inv(w, s) && s.engine == Idle
    ensures w.id(s.lastAccepted) !in s.processing && Decided(w.chain, s.past.accepted, w.id(s.lastAccepted))
  {
    assert Disjoint in Kept(w, s) && Tip in Kept(w, s);
  }

  lemma FilledIsRooted<Ref>(w: World<Ref>, s: State<Ref>, f: State<Ref>, p: Processed)
    requires Inv(w, s) && !s.ready && s.engine == Idle
    requires Filled(w, s, f, p) && Consistent(w.chain, p) && p.output.id == w.id(f.lastAccepted)
    ensures Rooted(w, f)
    ensures forall id :: id in f.processing ==> f.processing[id] !in f.outputs
  {
    LastNotProcessing(w, s);
    assert ProcessingNames in Kept(w, s) && AcceptedNames in Kept(w, s) && Vacuous in Kept(w, s);
    assert OutputsOk(w, f.outputs) by {
      assert Outputs in Kept(w, s);
    }
    FilledParents(w, s, f, p);
  }

  lemma FilledParents<Ref>(w: World<Ref>, s: State<Ref>, f: State<Ref>, p: Processed)
    requires Inv(w, s) && !s.ready && Filled(w, s, f, p)
    ensures forall id :: id in s.processing ==>
              w.chain.Parent(id) == w.id(f.lastAccepted) || w.chain.Parent(id) in s.processing
              || FoundOutput(w, f, w.chain.Parent(id)) == None
  {
    CachedIsDecided(w, s);
    assert AcceptedNames in Kept(w, s) && Vacuous in Kept(w, s) && Tree in Kept(w, s);
    forall id | id in s.processing
      ensures w.chain.Parent(id) == w.id(f.lastAccepted) || w.chain.Parent(id) in s.processing
              || FoundOutput(w, f, w.chain.Parent(id)) == None
    {
      ParentUnverified(w, s, f, p, id);
    }
  }

  /** What FinishStateSync did: `f` has the last accepted block filled in, and `t` is the result. */
  ghost predicate Finished<Ref>(w: World<Ref>, s: State<Ref>, f: State<Ref>, t: State<Ref>) {
    && t.unresolved.Some?
    && t == f.(outputs := t.outputs, lastProcessed := Some(f.lastAccepted), unresolved := t.unresolved, ready := true,
               past := s.past.(chain := [f.lastAccepted], calls := []))
    && OutputsOk(w, t.outputs)
    && Extends(s.processing, f.outputs, t.outputs)
    && (forall id :: id in s.processing ==>
          (s.processing[id] in t.outputs <==> PathOk(w.chain, Processing(s), w.id(s.lastAccepted), id)))
    && (forall id :: id in t.unresolved.value <==> id in s.processing && s.processing[id] !in t.outputs)
  }

  lemma SweepFinishes<Ref>(w: World<Ref>, s: State<Ref>, start: Processed, order: seq<BlockId>, b: Ref, p: Processed)
    requires Sound(w.chain) && !s.ready && MayFinishSync(w, s, start, order, b)
    requires FinishStateSync(w, s, start, order, b).Some?
    requires var f := FillLastAccepted(w, s, start, b).value;
             && Filled(w, s, f, p) && Rooted(w, f)
             && (forall id :: id in f.processing ==> f.processing[id] !in f.outputs)
    ensures Finished(w, s, FillLastAccepted(w, s, start, b).value, FinishStateSync(w, s, start, order, b).value)
  {
    var f := FillLastAccepted(w, s, start, b).value;
    assert Processing(f) == Processing(s);
    VerifyAllIsPath(w, f, order, {});
    var t := FinishStateSync(w, s, start, order, b).value;
    assert Processing(f.(outputs := t.outputs)) == Processing(s);
  }

  lemma FinishSyncFinishes<Ref>(w: World<Ref>, s: State<Ref>, start: Processed, order: seq<BlockId>, b: Ref)
    returns (f: State<Ref>, p: Processed)
    requires Sound(w.chain) && Inv(w, s) && !s.ready && MayFinishSync(w, s, start, order, b)
    requires FinishStateSync(w, s, start, order, b).Some?
    ensures Filled(w, s, f, p) && Consistent(w.chain, p) && p.output.id == w.id(f.lastAccepted)
    ensures CacheOk(w, f.byId, f.byHeight, s.past.accepted, f.lastAccepted)
    ensures Finished(w, s, f, FinishStateSync(w, s, start, order, b).value)
  {
    f := FillLastAccepted(w, s, start, b).value;
    assert Caches in Kept(w, s);
    FillFills(w, s, start, b);
    p := FinalForms(w, s, start).value;
    FinalFormsAreFolds(w, s, start);
    FilledIsRooted(w, s, f, p);
    SweepFinishes(w, s, start, order, b, p);
  }

  /** FinishStateSync verifies exactly the processing blocks whose whole path from the last accepted
      block verifies, and marks all the others unresolved. */
  lemma FinishSyncDecides<Ref>(w: World<Ref>, s: State<Ref>, start: Processed, order: seq<BlockId>, b: Ref)
    requires Sound(w.chain) && Inv(w, s) && !s.ready && MayFinishSync(w, s, start, order, b)
    requires FinishStateSync(w, s, start, order, b).Some?
    ensures var t := FinishStateSync(w, s, start, order, b).value;
            && t.ready && t.processing == s.processing && w.id(t.lastAccepted) == w.id(s.lastAccepted)
            && (forall id :: id in t.processing ==>
                  (t.processing[id] in t.outputs <==> PathOk(w.chain, Processing(s), w.id(s.lastAccepted), id)))
            && t.unresolved.Some?
            && (forall id :: id in t.unresolved.value <==>
                  id in s.processing && !PathOk(w.chain, Processing(s), w.id(s.lastAccepted), id))
  {
    var f, p := FinishSyncFinishes(w, s, start, order, b);
  }

  /** The sweep fails only on a block whose parent is nowhere to be found. */
  lemma {:induction false} VerifyAllNeedsParents<Ref>(
    w: World<Ref>, s: State<Ref>, order: seq<BlockId>, invalid: set<BlockId>)
    requires forall id :: id in order ==> id in s.processing
    ensures VerifyAll(w, s, order, invalid).Some? <==>
              forall id :: id in order ==> GetBlock(w, s, w.Parent(s.processing[id])) != Missing
    decreases |order|
  {
    if order != [] {
      var id := order[0];
      assert order == [id] + order[1..];
      match Executed(w, s, s.processing[id])
      case None => VerifyAllNeedsParents(w, s, order[1..], invalid + {id});
      case Some(output) =>
        var t := s.(outputs := s.outputs[s.processing[id] := output]);
        assert forall x :: GetBlock(w, t, x) == GetBlock(w, s, x);
        VerifyAllNeedsParents(w, t, order[1..], invalid);
    }
  }

  /** Filling in the last accepted block changes which object is found, not whether one is. */
  lemma FilledFindsTheSame<Ref>(w: World<Ref>, s: State<Ref>, f: State<Ref>, p: Processed, id: BlockId)
    requires Filled(w, s, f, p) && w.id(s.lastAccepted) in s.byId.entries
    ensures GetBlock(w, f, id) == Missing <==> GetBlock(w, s, id) == Missing
  {
  }

  lemma FilledState<Ref>(w: World<Ref>, s: State<Ref>, start: Processed, b: Ref) returns (f: State<Ref>, p: Processed)
    requires Inv(w, s) && Linked(w.chain, s.index) && w.id(b) == w.id(s.lastAccepted)
    requires FillLastAccepted(w, s, start, b).Some?
    ensures FillLastAccepted(w, s, start, b) == Some(f) && Filled(w, s, f, p) && f.unresolved == s.unresolved
    ensures w.id(s.lastAccepted) in s.byId.entries
  {
    assert Caches in Kept(w, s);
    FillFills(w, s, start, b);
    f, p := FillLastAccepted(w, s, start, b).value, FinalForms(w, s, start).value;
  }

  /** FinishStateSync succeeds exactly when state sync is under way, the blocks up to the last accepted
      one re-process, no processing block is an orphan, and state sync has not finished before in this
      process: the second time, registering the health check always fails. */
  lemma FinishSyncSucceeds<Ref>(w: World<Ref>, s: State<Ref>, start: Processed, order: seq<BlockId>, b: Ref)
    requires Inv(w, s) && MayFinishSync(w, s, start, order, b)
    ensures FinishStateSync(w, s, start, order, b).Some? <==>
              && !s.ready
              && FinalForms(w, s, start).Some?
              && (forall id :: id in s.processing ==> GetBlock(w, s, w.chain.Parent(id)) != Missing)
              && s.unresolved == None
  {
    if FillLastAccepted(w, s, start, b).Some? {
      var f, p := FilledState(w, s, start, b);
      VerifyAllNeedsParents(w, f, order, {});
      assert NamesOk(w, s.live, s.processing) by {
        assert ProcessingNames in Kept(w, s);
      }
      forall id | id in s.processing
        ensures w.Parent(f.processing[id]) == w.chain.Parent(id)
        ensures GetBlock(w, f, w.chain.Parent(id)) == Missing <==> GetBlock(w, s, w.chain.Parent(id)) == Missing
      {
        FilledFindsTheSame(w, s, f, p, w.chain.Parent(id));
      }
    }
  }

  /** Its re-processing succeeds exactly when the last accepted block is the one given, or everything above
      that one can be replayed. */
  lemma FinalFormsAnswer<Ref>(w: World<Ref>, s: State<Ref>, start: Processed)
    requires Sound(w.chain) && Linked(w.chain, s.index)
    requires Consistent(w.chain, start) && Anchored(w.chain, s.index, start.output.id)
    ensures FinalForms(w, s, start).Some?
            <==> || start.output.id == w.id(s.lastAccepted)
                 || (&& w.chain.Height(start.output.id) <= w.Height(s.lastAccepted)
                     && Replayable(w.chain, s.index, w.chain.Height(start.output.id), w.Height(s.lastAccepted)))
  {
    ReprocessedAnswers(w.chain, s.index, w.id(s.lastAccepted), start);
  }

  /** The clauses that depend on which blocks are verified now. */
  lemma FinishedKeepsLive<Ref>(w: World<Ref>, s: State<Ref>, f: State<Ref>, t: State<Ref>, p: Processed)
    requires Inv(w, s) && !s.ready && s.engine == Idle && Filled(w, s, f, p) && Finished(w, s, f, t)
    ensures Live in Kept(w, t)
  {
    assert Live in Kept(w, s) && ProcessingNames in Kept(w, s);
  }

  /** A VM that has just become ready: a chain of one block with nothing queued behind it. */
  lemma ChainStarts<Ref>(w: World<Ref>, t: State<Ref>)
    requires t.engine == Idle && t.accepter == Waiting && t.queue == [] && t.lastProcessed == Some(t.lastAccepted)
    requires t.past.chain == [t.lastAccepted] && t.past.calls == []
    requires t.lastAccepted in t.outputs && t.lastAccepted in t.accepteds
    requires Decided(w.chain, t.past.accepted, w.id(t.lastAccepted))
    ensures Chained in Kept(w, t) && Pipeline in Kept(w, t) && Front in Kept(w, t)
  {
  }

  lemma RecentStarts<Ref>(
    w: World<Ref>, byId: Fifo<BlockId, Ref>, byHeight: Fifo<nat, BlockId>, accepted: map<nat, BlockId>, b: Ref)
    requires CacheOk(w, byId, byHeight, accepted, b)
    ensures SettledOk(w, [b], byId)
  {
  }

  lemma FinishedKeepsChain<Ref>(w: World<Ref>, s: State<Ref>, f: State<Ref>, t: State<Ref>, p: Processed)
    requires Inv(w, s) && !s.ready && s.engine == Idle && Filled(w, s, f, p) && Finished(w, s, f, t)
    ensures Chained in Kept(w, t) && Pipeline in Kept(w, t) && Front in Kept(w, t)
  {
    LastNotProcessing(w, s);
    assert s.queue == [] && s.accepter == Waiting by {
      assert Still in Kept(w, s);
    }
    assert t.lastAccepted in f.outputs;
    ChainStarts(w, t);
  }

  lemma FinishSyncKeeps<Ref>(w: World<Ref>, s: State<Ref>, start: Processed, order: seq<BlockId>, b: Ref)
    requires Sound(w.chain) && Inv(w, s) && !s.ready && MayFinishSync(w, s, start, order, b)
    requires FinishStateSync(w, s, start, order, b).Some?
    ensures Inv(w, FinishStateSync(w, s, start, order, b).value)
  {
    var t := FinishStateSync(w, s, start, order, b).value;
    var f, p := FinishSyncFinishes(w, s, start, order, b);
    forall clause: Clause ensures clause in Kept(w, t) {
      FinishedKeeps(w, s, f, t, p, clause);
    }
  }

  lemma FinishedKeeps<Ref>(w: World<Ref>, s: State<Ref>, f: State<Ref>, t: State<Ref>, p: Processed, clause: Clause)
    requires Inv(w, s) && !s.ready && s.engine == Idle && Filled(w, s, f, p) && Finished(w, s, f, t)
    requires Consistent(w.chain, p) && p.output.id == w.id(f.lastAccepted)
    requires CacheOk(w, f.byId, f.byHeight, s.past.accepted, f.lastAccepted)
    ensures clause in Kept(w, t)
  {
    if clause == Chained || clause == Pipeline || clause == Front {
      FinishedKeepsChain(w, s, f, t, p);
    } else if clause == Live {
      FinishedKeepsLive(w, s, f, t, p);
    } else if clause == Recent {
      FinishedKeepsRecent(w, s, f, t);
    } else if clause == Outputs || clause == Unresolved {
      FinishedKeepsOutputs(w, s, f, t, p);
    } else if clause == Caches {
      FinishedKeepsCaches(w, s, f, t);
    } else {
      FinishedKeepsRest(w, s, f, t, p, clause);
    }
  }

  lemma FinishedKeepsRecent<Ref>(w: World<Ref>, s: State<Ref>, f: State<Ref>, t: State<Ref>)
    requires s.engine == Idle && f.engine == s.engine && Finished(w, s, f, t)
    requires CacheOk(w, f.byId, f.byHeight, s.past.accepted, f.lastAccepted)
    ensures Recent in Kept(w, t)
  {
    RecentStarts(w, f.byId, f.byHeight, s.past.accepted, f.lastAccepted);
    assert Settled(t.past.chain, t.engine) == [f.lastAccepted];
  }

  lemma FinishedKeepsOutputs<Ref>(w: World<Ref>, s: State<Ref>, f: State<Ref>, t: State<Ref>, p: Processed)
    requires Filled(w, s, f, p) && Finished(w, s, f, t)
    ensures Outputs in Kept(w, t) && Unresolved in Kept(w, t)
  {
  }

  lemma FinishedKeepsCaches<Ref>(w: World<Ref>, s: State<Ref>, f: State<Ref>, t: State<Ref>)
    requires Finished(w, s, f, t)
    requires CacheOk(w, f.byId, f.byHeight, s.past.accepted, f.lastAccepted)
    ensures Caches in Kept(w, t)
  {
  }

  lemma FinishedKeepsRest<Ref>(w: World<Ref>, s: State<Ref>, f: State<Ref>, t: State<Ref>, p: Processed, clause: Clause)
    requires Inv(w, s) && !s.ready && s.engine == Idle && Filled(w, s, f, p) && Finished(w, s, f, t)
    requires Consistent(w.chain, p) && p.output.id == w.id(f.lastAccepted)
    requires clause !in {Chained, Pipeline, Front, Live, Recent, Outputs, Unresolved, Caches}
    ensures clause in Kept(w, t)
  {
    assert clause in Kept(w, s);
  }

  // ---- Starting a process --------------------------------------------------------------------

  /** The forms a new process knows of the indexed tip are its folds. */
  lemma BootForms<Ref>(w: World<Ref>, index: Index, start: Processed, b: Ref)
    requires Sound(w.chain) && MayBoot(w, index, Some(start), b)
    ensures var r := Reprocessed(w.chain, index, w.id(b), start).0;
            r.Some? ==> Consistent(w.chain, r.value) && r.value.output.id == w.id(b)
  {
    if Reprocessed(w.chain, index, w.id(b), start).0.Some? {
      ReprocessIsFold(w.chain, index, index.last, start, w.chain.Height(start.output.id), []);
    }
  }

  lemma FreshKeeps<Ref>(
    w: World<Ref>, index: Index, limit: nat, accepted: map<nat, BlockId>, forms: Option<Processed>, b: Ref)
    requires IndexOk(w.chain, index, accepted) && w.id(b) == index.blocks[index.last] && 0 < limit
    requires forms.Some? ==> Consistent(w.chain, forms.value) && forms.value.output.id == w.id(b)
    ensures Inv(w, Fresh(w, index, limit, accepted, forms, b))
  {
    forall clause: Clause ensures clause in Kept(w, Fresh(w, index, limit, accepted, forms, b)) {
      if clause in {Chained, Pipeline, Front, Recent, Unresolved, Accepteds, Calls} {
        FreshKeepsSession(w, index, limit, accepted, forms, b, clause);
      } else {
        FreshKeepsRest(w, index, limit, accepted, forms, b, clause);
      }
    }
  }

  lemma FreshKeepsSession<Ref>(
    w: World<Ref>, index: Index, limit: nat, accepted: map<nat, BlockId>, forms: Option<Processed>, b: Ref, clause: Clause)
    requires IndexOk(w.chain, index, accepted) && w.id(b) == index.blocks[index.last] && 0 < limit
    requires forms.Some? ==> Consistent(w.chain, forms.value) && forms.value.output.id == w.id(b)
    requires clause in {Chained, Pipeline, Front, Recent, Unresolved, Accepteds, Calls}
    ensures clause in Kept(w, Fresh(w, index, limit, accepted, forms, b))
  {
    var t := Fresh(w, index, limit, accepted, forms, b);
    assert t.byId.order == [w.id(b)] && w.Height(b) == index.last;
    if forms.Some? {
      ChainStarts(w, t);
    }
  }

  lemma FreshKeepsRest<Ref>(
    w: World<Ref>, index: Index, limit: nat, accepted: map<nat, BlockId>, forms: Option<Processed>, b: Ref, clause: Clause)
    requires IndexOk(w.chain, index, accepted) && w.id(b) == index.blocks[index.last] && 0 < limit
    requires forms.Some? ==> Consistent(w.chain, forms.value) && forms.value.output.id == w.id(b)
    requires clause !in {Chained, Pipeline, Front, Recent, Unresolved, Accepteds, Calls}
    ensures clause in Kept(w, Fresh(w, index, limit, accepted, forms, b))
  {
    var t := Fresh(w, index, limit, accepted, forms, b);
    assert t.byId.order == [w.id(b)] && t.byHeight.order == [w.Height(b)];
    assert w.Height(b) == index.last;
  }

  /** A start succeeds exactly when the cache has room and, given both forms of a block, everything indexed
      above it can be replayed; and then it is ready exactly when it was given them. */
  lemma BootAnswers<Ref>(
    w: World<Ref>, index: Index, limit: nat, accepted: map<nat, BlockId>, start: Option<Processed>, b: Ref)
    requires Sound(w.chain) && MayBoot(w, index, start, b)
    ensures Boot(w, index, limit, accepted, start, b).Some?
            <==> && 0 < limit
                 && (start.Some? ==>
                       && w.chain.Height(start.value.output.id) <= w.Height(b)
                       && Replayable(w.chain, index, w.chain.Height(start.value.output.id), w.Height(b)))
    ensures Boot(w, index, limit, accepted, start, b).Some? ==>
              Boot(w, index, limit, accepted, start, b).value.ready == start.Some?
  {
    if start.Some? {
      ReprocessedAnswers(w.chain, index, w.id(b), start.value);
    }
  }

  lemma BootKeeps<Ref>(
    w: World<Ref>, index: Index, limit: nat, accepted: map<nat, BlockId>, start: Option<Processed>, b: Ref)
    requires Sound(w.chain) && IndexOk(w.chain, index, accepted) && MayBoot(w, index, start, b)
    requires Boot(w, index, limit, accepted, start, b).Some?
    ensures Inv(w, Boot(w, index, limit, accepted, start, b).value)
  {
    if start.Some? {
      BootForms(w, index, start.value, b);
      FreshKeeps(w, index, limit, accepted, Reprocessed(w.chain, index, w.id(b), start.value).0, b);
    } else {
      FreshKeeps(w, index, limit, accepted, None, b);
    }
  }
}
