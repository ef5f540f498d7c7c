/** The chain a consensus VM drives, its persistent index of accepted blocks, and its bounded caches.
    A block is named by its hash, and hashing is taken to be injective: the name fixes the parent,
    the height and the embedded P-Chain context. */
module SnowChain {
  import opened Bytes

  type BlockId(==, !new)

  /** What executing a block adds to it. */
  type View(==, !new)

  /** What committing a block adds to it. */
  type Commit(==, !new)

  datatype Header = Header(parent: BlockId, height: nat, context: Option<nat>)

  datatype Output = Output(id: BlockId, view: View)

  datatype Accepted = Accepted(id: BlockId, commit: Commit)

  /** The application below the VM. `verify` is VerifyBlock and `accept` is AcceptBlock: partial
      functions, where None is an error. The parent that `accept` receives is None when the VM hands
      over the zero value of the accepted type. */
  datatype Chain = Chain(
    header: BlockId -> Header,
    verify: (Output, BlockId) -> Option<Output>,
    accept: (Option<Accepted>, Output) -> Option<Accepted>,
    genesis: BlockId,
    genesisOutput: Output,
    genesisAccepted: Accepted)
  {
    function Parent(b: BlockId): BlockId {
      header(b).parent
    }

    function Height(b: BlockId): nat {
      header(b).height
    }
  }

  /** What the VM relies on: the results keep the identity of the block they are results of, and a
      block that verifies is one higher than the parent it verifies against. */
  ghost predicate Sound(c: Chain) {
    && c.Height(c.genesis) == 0
    && c.genesisOutput.id == c.genesis
    && c.genesisAccepted.id == c.genesis
    && (forall p, b :: c.verify(p, b).Some? ==>
          c.verify(p, b).value.id == b && c.Height(b) == c.Height(p.id) + 1)
    && (forall p, o :: c.accept(p, o).Some? ==> c.accept(p, o).value.id == o.id)
  }

  /** The output of `b`: VerifyBlock folded along its ancestors from genesis. */
  ghost function OutputOf(c: Chain, b: BlockId): (r: Option<Output>)
    ensures Sound(c) && r.Some? ==> r.value.id == b
    decreases c.Height(b)
  {
    if b == c.genesis then Some(c.genesisOutput)
    else if c.Height(b) <= c.Height(c.Parent(b)) then None
    else match OutputOf(c, c.Parent(b))
      case None => None
      case Some(parent) => c.verify(parent, b)
  }

  /** The accepted form of `b`: AcceptBlock folded along its ancestors from genesis. */
  ghost function AcceptedOf(c: Chain, b: BlockId): (r: Option<Accepted>)
    ensures Sound(c) && r.Some? ==> r.value.id == b
    decreases c.Height(b)
  {
    if b == c.genesis then Some(c.genesisAccepted)
    else if c.Height(b) <= c.Height(c.Parent(b)) then None
    else match (AcceptedOf(c, c.Parent(b)), OutputOf(c, b))
      case (Some(parent), Some(output)) => c.accept(Some(parent), output)
      case _ => None
  }

  /** Verifying a child against its parent's output gives the child's output. */
  lemma VerifyExtends(c: Chain, b: BlockId)
    requires Sound(c) && OutputOf(c, c.Parent(b)).Some?
    requires c.verify(OutputOf(c, c.Parent(b)).value, b).Some?
    ensures OutputOf(c, b) == c.verify(OutputOf(c, c.Parent(b)).value, b)
    ensures b != c.genesis && c.Height(b) == c.Height(c.Parent(b)) + 1
  {
  }

  /** Accepting a child on top of its parent's accepted form gives the child's accepted form. */
  lemma AcceptExtends(c: Chain, b: BlockId)
    requires Sound(c) && c.Height(b) == c.Height(c.Parent(b)) + 1
    requires AcceptedOf(c, c.Parent(b)).Some? && OutputOf(c, b).Some?
    ensures AcceptedOf(c, b) == c.accept(Some(AcceptedOf(c, c.Parent(b)).value), OutputOf(c, b).value)
  {
  }

  // ---- The persistent index ------------------------------------------------------------------

  /** The blocks on disk by height, and the height of the last accepted one. */
  datatype Index = Index(blocks: map<nat, BlockId>, last: nat) {
    predicate Holds(c: Chain, b: BlockId) {
      c.Height(b) in blocks && blocks[c.Height(b)] == b
    }
  }

  /** What UpdateLastAccepted may do: record the block as the last one, and prune others. */
  ghost predicate Records(c: Chain, before: Index, b: BlockId, after: Index) {
    && after.last == c.Height(b)
    && after.Holds(c, b)
    && forall h :: h in after.blocks && h != c.Height(b) ==>
         h in before.blocks && after.blocks[h] == before.blocks[h]
  }

  /** The index is part of the accepted history, which is a chain of parents wherever it has no gap. */
  ghost predicate History(c: Chain, accepted: map<nat, BlockId>) {
    && (forall h :: h in accepted ==> c.Height(accepted[h]) == h)
    && (forall h: nat :: h in accepted && h + 1 in accepted ==> c.Parent(accepted[h + 1]) == accepted[h])
  }

  ghost predicate IndexOk(c: Chain, index: Index, accepted: map<nat, BlockId>) {
    && History(c, accepted)
    && (forall h :: h in index.blocks ==> h in accepted && accepted[h] == index.blocks[h])
    && index.last in index.blocks
    && (forall h :: h in accepted ==> h <= index.last)
  }

  // ---- Re-processing -------------------------------------------------------------------------

  /** The output and the accepted form of one block. */
  datatype Processed = Processed(output: Output, accepted: Accepted)

  /** Both forms of one and the same block, each the fold along its ancestors. */
  ghost predicate Consistent(c: Chain, p: Processed) {
    && OutputOf(c, p.output.id) == Some(p.output)
    && AcceptedOf(c, p.output.id) == Some(p.accepted)
  }

  /** One turn of the re-processing loop: fetch the next height, verify it, accept it. */
  function ReprocessOne(c: Chain, index: Index, p: Processed): Option<Processed> {
    var h := c.Height(p.output.id) + 1;
    if h !in index.blocks then None
    else match c.verify(p.output, index.blocks[h])
      case None => None
      case Some(output) =>
        match c.accept(Some(p.accepted), output)
        case None => None
        case Some(accepted) => Some(Processed(output, accepted))
  }

  lemma ReprocessOneIsFold(c: Chain, index: Index, p: Processed)
    requires Sound(c) && Consistent(c, p)
    requires var h := c.Height(p.output.id) + 1;
             h in index.blocks ==> c.Height(index.blocks[h]) == h && c.Parent(index.blocks[h]) == p.output.id
    ensures var r := ReprocessOne(c, index, p);
            r.Some? ==> Consistent(c, r.value) && r.value.output.id == index.blocks[c.Height(p.output.id) + 1]
  {
    var r := ReprocessOne(c, index, p);
    if r.Some? {
      var b := index.blocks[c.Height(p.output.id) + 1];
      VerifyExtends(c, b);
      AcceptExtends(c, b);
    }
  }

  /** The output block given at startup or by state sync lies on the indexed chain. */
  ghost predicate Anchored(c: Chain, index: Index, b: BlockId) {
    && (c.Height(b) in index.blocks ==> index.blocks[c.Height(b)] == b)
    && (c.Height(b) + 1 in index.blocks ==> c.Parent(index.blocks[c.Height(b) + 1]) == b)
  }

  /** The chain that re-processing walks: linked blocks stored under their own heights. */
  ghost predicate Linked(c: Chain, index: Index) {
    && (forall h :: h in index.blocks ==> c.Height(index.blocks[h]) == h)
    && (forall h: nat :: h in index.blocks && h + 1 in index.blocks ==>
          c.Parent(index.blocks[h + 1]) == index.blocks[h])
  }

  /** Re-processing from `p` up to height `goal`, with the accepted notifications already sent: the
      result and all the notifications. */
  function ReprocessTo(c: Chain, index: Index, goal: nat, p: Processed, sent: seq<Accepted>)
    : (Option<Processed>, seq<Accepted>)
    requires Linked(c, index)
    decreases goal - c.Height(p.output.id)
  {
    if goal <= c.Height(p.output.id) then (Some(p), sent)
    else match ReprocessOne(c, index, p)
      case None => (None, sent)
      case Some(next) =>
        if c.Height(next.output.id) <= c.Height(p.output.id) then (None, sent)
        else ReprocessTo(c, index, goal, next, sent + [next.accepted])
  }

  /** reprocessFromOutputToInput with its guard. */
  function Reprocessed(c: Chain, index: Index, target: BlockId, start: Processed): (Option<Processed>, seq<Accepted>)
    requires Linked(c, index)
  {
    if c.Height(target) < c.Height(start.output.id) || start.output.id != start.accepted.id then (None, [])
    else ReprocessTo(c, index, c.Height(target), start, [])
  }

  /** The notifications are the accepted forms of the blocks indexed right above height `base`, in
      height order. */
  ghost predicate Delivers(c: Chain, index: Index, base: nat, notified: seq<Accepted>) {
    forall k :: 0 <= k < |notified| ==> Delivered(c, index, base + 1 + k, notified[k])
  }

  ghost predicate Delivered(c: Chain, index: Index, height: nat, a: Accepted) {
    height in index.blocks && AcceptedOf(c, index.blocks[height]) == Some(a)
  }

  lemma DeliversOneMore(c: Chain, index: Index, base: nat, sent: seq<Accepted>, next: Accepted)
    requires Delivers(c, index, base, sent)
    requires Delivered(c, index, base + 1 + |sent|, next)
    ensures Delivers(c, index, base, sent + [next])
  {
    var all := sent + [next];
    forall k | 0 <= k < |all| ensures Delivered(c, index, base + 1 + k, all[k]) {
      assert k < |sent| ==> all[k] == sent[k];
    }
  }

  /** Every height above the start is delivered once, in order, carrying the fold along its ancestors;
      the result is the last of them. */
  lemma {:induction false} ReprocessIsFold(
    c: Chain, index: Index, goal: nat, p: Processed, base: nat, sent: seq<Accepted>)
    requires Sound(c) && Linked(c, index) && Consistent(c, p) && Anchored(c, index, p.output.id)
    requires c.Height(p.output.id) <= goal && c.Height(p.output.id) == base + |sent|
    requires Delivers(c, index, base, sent)
    ensures var (r, notified) := ReprocessTo(c, index, goal, p, sent);
            && Delivers(c, index, base, notified)
            && (r.Some? ==>
                  && Consistent(c, r.value)
                  && |notified| == goal - base
                  && (if goal == c.Height(p.output.id) then r.value == p
                      else goal in index.blocks && r.value.output.id == index.blocks[goal]))
    decreases goal - c.Height(p.output.id)
  {
    if c.Height(p.output.id) < goal {
      var next := ReprocessOne(c, index, p);
      if next.Some? {
        ReprocessOneIsFold(c, index, p);
        assert c.Height(next.value.output.id) == c.Height(p.output.id) + 1;
        DeliversOneMore(c, index, base, sent, next.value.accepted);
        ReprocessIsFold(c, index, goal, next.value, base, sent + [next.value.accepted]);
      }
    }
  }

  /** Every height above `base` up to `goal` is indexed, and its block is valid and accepted by the chain. */
  ghost predicate Replayable(c: Chain, index: Index, base: nat, goal: nat) {
    forall h :: base < h <= goal ==> Replays(c, index, h)
  }

  ghost predicate Replays(c: Chain, index: Index, h: nat) {
    h in index.blocks && AcceptedOf(c, index.blocks[h]).Some?
  }

  lemma ReprocessOneAnswers(c: Chain, index: Index, p: Processed)
    requires Sound(c) && Linked(c, index) && Consistent(c, p) && Anchored(c, index, p.output.id)
    ensures ReprocessOne(c, index, p).Some? <==> Replays(c, index, c.Height(p.output.id) + 1)
  {
    var h := c.Height(p.output.id) + 1;
    if h in index.blocks {
      var b := index.blocks[h];
      assert c.Height(b) == h && c.Parent(b) == p.output.id;
      if c.verify(p.output, b).Some? {
        VerifyExtends(c, b);
        AcceptExtends(c, b);
      }
    }
  }

  /** Re-processing succeeds exactly when there is nothing it cannot replay. */
  lemma {:induction false} ReprocessAnswers(c: Chain, index: Index, goal: nat, p: Processed, sent: seq<Accepted>)
    requires Sound(c) && Linked(c, index) && Consistent(c, p) && Anchored(c, index, p.output.id)
    ensures ReprocessTo(c, index, goal, p, sent).0.Some? <==> Replayable(c, index, c.Height(p.output.id), goal)
    decreases goal - c.Height(p.output.id)
  {
    var base := c.Height(p.output.id);
    if base < goal {
      var next := ReprocessOne(c, index, p);
      ReprocessOneAnswers(c, index, p);
      if next.Some? {
        ReprocessOneIsFold(c, index, p);
        assert c.Height(next.value.output.id) == base + 1;
        ReprocessAnswers(c, index, goal, next.value, sent + [next.value.accepted]);
      }
    }
  }

  /** With its guard: the target must also not lie below the start. */
  lemma ReprocessedAnswers(c: Chain, index: Index, target: BlockId, start: Processed)
    requires Sound(c) && Linked(c, index) && Consistent(c, start) && Anchored(c, index, start.output.id)
    ensures Reprocessed(c, index, target, start).0.Some?
            <==> && c.Height(start.output.id) <= c.Height(target)
                 && Replayable(c, index, c.Height(start.output.id), c.Height(target))
  {
    ReprocessAnswers(c, index, c.Height(target), start, []);
  }

  /** The re-processing loop: fetch the next height, verify it, accept it, notify. It ends because
      every turn brings the output block closer to the target. */
  method Reprocess(c: Chain, index: Index, target: BlockId, start: Processed)
    returns (r: Option<Processed>, notified: seq<Accepted>)
    requires Sound(c) && Linked(c, index)
    ensures (r, notified) == Reprocessed(c, index, target, start)
  {
    if c.Height(target) < c.Height(start.output.id) || start.output.id != start.accepted.id {
      return None, [];
    }
    var goal := c.Height(target);
    var output, accepted := start.output, start.accepted;
    notified := [];
    while goal > c.Height(output.id)
      invariant Reprocessed(c, index, target, start)
             == ReprocessTo(c, index, goal, Processed(output, accepted), notified)
      decreases goal - c.Height(output.id)
    {
      var h := c.Height(output.id) + 1;
      if h !in index.blocks {
        return None, notified;
      }
      var verified := c.verify(output, index.blocks[h]);
      if verified.None? {
        return None, notified;
      }
      var committed := c.accept(Some(accepted), verified.value);
      if committed.None? {
        return None, notified;
      }
      assert ReprocessOne(c, index, Processed(output, accepted)) == Some(Processed(verified.value, committed.value));
      output, accepted := verified.value, committed.value;
      notified := notified + [accepted];
    }
    r := Some(Processed(output, accepted));
  }

  // ---- Bounded first-in first-out caches -----------------------------------------------------

  /** The queue of keys after a new key is pushed: a full queue drops its oldest first. */
  function Pushed<K>(order: seq<K>, limit: nat, k: K): seq<K> {
    if |order| >= limit && order != [] then order[1..] + [k] else order + [k]
  }

  ghost predicate Distinct<K>(order: seq<K>) {
    forall i, j :: 0 <= i < j < |order| ==> order[i] != order[j]
  }

  /** The entry stored `age` new keys ago. */
  function Aged<K>(order: seq<K>, age: nat): K
    requires age < |order|
  {
    order[|order| - 1 - age]
  }

  /** The pushed key is the newest, the others age by one, and only the oldest of a full queue goes. */
  lemma PushAges<K>(order: seq<K>, limit: nat, k: K)
    requires |order| <= limit && 0 < limit && Distinct(order) && k !in order
    ensures var pushed := Pushed(order, limit, k);
            && Distinct(pushed)
            && |pushed| == (if |order| == limit then limit else |order| + 1)
            && Aged(pushed, 0) == k
            && (forall age: nat :: age + 1 < |pushed| ==> Aged(pushed, age + 1) == Aged(order, age))
  {
  }

  lemma PushKeeps<K>(order: seq<K>, limit: nat, k: K, x: K)
    requires |order| <= limit && 0 < limit && Distinct(order)
    ensures x in Pushed(order, limit, k) <==>
              x == k || (x in order && !(|order| == limit && x == order[0]))
  {
    var kept := if |order| >= limit then order[1..] else order;
    assert Pushed(order, limit, k) == kept + [k];
    if |order| >= limit {
      assert order == [order[0]] + kept;
    }
  }

  /** A cache of at most `limit` entries. Storing a key again changes its value without requeueing it;
      storing a new key into a full cache drops the oldest. */
  datatype Fifo<K(==, !new), V> = Fifo(limit: nat, order: seq<K>, entries: map<K, V>) {
    function Put(k: K, v: V): Fifo<K, V> {
      if k in entries then this.(entries := entries[k := v])
      else
        var kept := if |order| >= limit && order != [] then entries - {order[0]} else entries;
        Fifo(limit, Pushed(order, limit, k), kept[k := v])
    }

    ghost predicate Valid() {
      && |order| <= limit && 0 < limit
      && Distinct(order)
      && (forall k :: k in entries <==> k in order)
    }
  }

  lemma PutKeepsValid<K(!new), V>(f: Fifo<K, V>, k: K, v: V)
    requires f.Valid()
    ensures var g := f.Put(k, v);
            && g.Valid() && g.limit == f.limit && k in g.entries && g.entries[k] == v
            && (forall x :: x in g.entries && x != k ==> x in f.entries && g.entries[x] == f.entries[x])
  {
    var g := f.Put(k, v);
    if k !in f.entries {
      PushAges(f.order, f.limit, k);
      forall x ensures x in g.entries <==> x in g.order {
        PushKeeps(f.order, f.limit, k, x);
      }
    }
  }
}
