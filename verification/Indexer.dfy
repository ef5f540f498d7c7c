/** The in-memory indexer of executed blocks: three caches over a sliding window of blocks, backed by a
    database from which they are rebuilt. */
module Indexer {
  import opened Bytes

  const MAX_BLOCK_WINDOW := 1_000_000
  const NO_HEIGHT: U64 := TWO_TO_THE_64 - 1

  type Body(==, !new)

  type TxResult(==, !new)

  datatype Tx = Tx(id: Id, body: Body)

  datatype Block = Block(id: Id, height: U64, timestamp: I64, txs: seq<Tx>, results: seq<TxResult>)

  /** Where a transaction is: the height of its block and its position there. */
  datatype CachedTx = CachedTx(blkHeight: U64, index: nat)

  /** The executed chain. */
  type Canon = U64 -> Block

  /** Every block has its own ID, no transaction occurs twice, and every transaction has a result. */
  ghost predicate SoundCanon(c: Canon) {
    && (forall h: U64 :: c(h).height == h && |c(h).results| == |c(h).txs|)
    && (forall g: U64, h: U64 :: c(g).id == c(h).id ==> g == h)
    && (forall g: U64, h: U64, i, j ::
          0 <= i < |c(g).txs| && 0 <= j < |c(h).txs| && c(g).txs[i].id == c(h).txs[j].id ==> g == h && i == j)
  }

  // ---- The caches as a projection of some heights --------------------------------------------

  ghost predicate BlocksOk(c: Canon, blocks: map<U64, Block>, heights: set<U64>) {
    forall h: U64 :: (h in blocks <==> h in heights) && (h in heights ==> blocks[h] == c(h))
  }

  ghost predicate IdsOk(c: Canon, ids: map<Id, U64>, heights: set<U64>) {
    && (forall id :: id in ids ==> ids[id] in heights && c(ids[id]).id == id)
    && (forall h :: h in heights ==> c(h).id in ids)
  }

  ghost predicate TxsOk(c: Canon, txs: map<Id, CachedTx>, heights: set<U64>) {
    && (forall id :: id in txs ==>
          && txs[id].blkHeight in heights
          && txs[id].index < |c(txs[id].blkHeight).txs|
          && c(txs[id].blkHeight).txs[txs[id].index].id == id)
    && (forall h, i :: h in heights && 0 <= i < |c(h).txs| ==> c(h).txs[i].id in txs)
  }

  lemma IdsInsert(c: Canon, ids: map<Id, U64>, heights: set<U64>, h: U64)
    requires SoundCanon(c) && IdsOk(c, ids, heights)
    ensures IdsOk(c, ids[c(h).id := h], heights + {h})
    ensures IdsOk(c, ids - {c(h).id}, heights - {h})
  {
  }

  lemma BlocksInsert(c: Canon, blocks: map<U64, Block>, heights: set<U64>, h: U64)
    requires BlocksOk(c, blocks, heights)
    ensures BlocksOk(c, blocks[h := c(h)], heights + {h})
    ensures BlocksOk(c, blocks - {h}, heights - {h})
  {
  }

  /** The IDs of the first n transactions. */
  function TxIds(txs: seq<Tx>, n: nat): set<Id>
    requires n <= |txs|
  {
    set i | 0 <= i < n :: txs[i].id
  }

  lemma TxsEvict(c: Canon, txs: map<Id, CachedTx>, heights: set<U64>, h: U64)
    requires SoundCanon(c) && TxsOk(c, txs, heights)
    ensures TxsOk(c, txs - TxIds(c(h).txs, |c(h).txs|), heights - {h})
  {
    var gone := TxIds(c(h).txs, |c(h).txs|);
    forall id | id in txs && id !in gone ensures txs[id].blkHeight != h {
      assert c(txs[id].blkHeight).txs[txs[id].index].id == id;
    }
    forall g, i | g in heights - {h} && 0 <= i < |c(g).txs| ensures c(g).txs[i].id in txs - gone {
      assert c(g).txs[i].id in txs;
    }
  }

  /** The cache after the first n transactions of the block at height h are added. */
  function WithTxs(cache: map<Id, CachedTx>, txs: seq<Tx>, h: U64, n: nat): map<Id, CachedTx>
    requires n <= |txs|
  {
    if n == 0 then cache else WithTxs(cache, txs, h, n - 1)[txs[n - 1].id := CachedTx(h, n - 1)]
  }

  lemma {:induction false} WithTxsAt(cache: map<Id, CachedTx>, txs: seq<Tx>, h: U64, n: nat)
    requires n <= |txs|
    ensures forall id :: id in WithTxs(cache, txs, h, n) ==>
              var at := WithTxs(cache, txs, h, n)[id];
              || (id in cache && at == cache[id])
              || (at.blkHeight == h && at.index < n && txs[at.index].id == id)
    ensures forall id :: id in cache ==> id in WithTxs(cache, txs, h, n)
    ensures forall i :: 0 <= i < n ==> txs[i].id in WithTxs(cache, txs, h, n)
  {
    if n > 0 {
      WithTxsAt(cache, txs, h, n - 1);
    }
  }

  lemma TxsInsert(c: Canon, txs: map<Id, CachedTx>, heights: set<U64>, h: U64)
    requires SoundCanon(c) && TxsOk(c, txs, heights)
    ensures TxsOk(c, WithTxs(txs, c(h).txs, h, |c(h).txs|), heights + {h})
  {
    hide WithTxs, SoundCanon;
    WithTxsAt(txs, c(h).txs, h, |c(h).txs|);
  }

  /** The three caches project these heights. */
  ghost predicate Projects(
    c: Canon, ids: map<Id, U64>, blocks: map<U64, Block>, txs: map<Id, CachedTx>, heights: set<U64>)
  {
    IdsOk(c, ids, heights) && BlocksOk(c, blocks, heights) && TxsOk(c, txs, heights)
  }

  lemma ProjectsLess(
    c: Canon, ids: map<Id, U64>, blocks: map<U64, Block>, txs: map<Id, CachedTx>, heights: set<U64>, h: U64)
    requires SoundCanon(c) && Projects(c, ids, blocks, txs, heights)
    ensures Projects(c, ids - {c(h).id}, blocks - {h}, txs - TxIds(c(h).txs, |c(h).txs|), heights - {h})
  {
    IdsInsert(c, ids, heights, h);
    BlocksInsert(c, blocks, heights, h);
    TxsEvict(c, txs, heights, h);
  }

  lemma ProjectsMore(
    c: Canon, ids: map<Id, U64>, blocks: map<U64, Block>, txs: map<Id, CachedTx>, heights: set<U64>, h: U64)
    requires SoundCanon(c) && Projects(c, ids, blocks, txs, heights)
    ensures Projects(c, ids[c(h).id := h], blocks[h := c(h)], WithTxs(txs, c(h).txs, h, |c(h).txs|), heights + {h})
  {
    IdsInsert(c, ids, heights, h);
    BlocksInsert(c, blocks, heights, h);
    TxsInsert(c, txs, heights, h);
  }

  /** The heights cached after inserting height h. */
  function Insert(heights: set<U64>, window: U64, h: U64): set<U64> {
    Retained(heights, window, h) + {h}
  }

  /** The cached heights that height h does not push out. */
  function Retained(heights: set<U64>, window: U64, h: U64): set<U64> {
    if window <= h then heights - {(h - window) as U64} else heights
  }

  class Indexer {
    const canon: Canon
    const blockWindow: U64
    var blockIDToHeight: map<Id, U64>
    var blockHeightToBlock: map<U64, Block>
    var txCache: map<Id, CachedTx>
    var lastHeight: U64
    var blockDB: map<U64, Block>

    ghost function Cached(): set<U64>
      reads this`blockHeightToBlock
    {
      blockHeightToBlock.Keys
    }

    ghost function Stored(): set<U64>
      reads this`blockDB
    {
      blockDB.Keys
    }

    /** The three caches are the projection of the cached heights, all of which leave room for the window
        below the largest word. */
    ghost predicate Valid()
      reads this`blockIDToHeight, this`blockHeightToBlock, this`txCache, this`blockDB
    {
      && SoundCanon(canon)
      && 0 < blockWindow
      && Projects(canon, blockIDToHeight, blockHeightToBlock, txCache, Cached())
      && BlocksOk(canon, blockDB, Stored())
      && (forall h :: h in Cached() || h in Stored() ==> h as nat + blockWindow as nat < TWO_TO_THE_64)
    }

    constructor (canon: Canon, blockWindow: U64, db: map<U64, Block>)
      requires SoundCanon(canon) && 0 < blockWindow && BlocksOk(canon, db, db.Keys)
      requires forall h :: h in db ==> h as nat + blockWindow as nat < TWO_TO_THE_64
      ensures Valid() && Cached() == {} && blockDB == db
      ensures this.canon == canon && this.blockWindow == blockWindow && lastHeight == NO_HEIGHT
    {
      this.canon, this.blockWindow, blockDB := canon, blockWindow, db;
      blockIDToHeight, blockHeightToBlock, txCache, lastHeight := map[], map[], map[], NO_HEIGHT;
    }

    /** The height that leaves the window; it wraps around below the window. */
    function Evicted(h: U64): (out: U64)
      ensures out as int == if blockWindow <= h then h as int - blockWindow as int
                            else h as int - blockWindow as int + TWO_TO_THE_64
    {
      (h - blockWindow) % TWO_TO_THE_64
    }

    /** Evicting removes nothing below the window, where the height wraps around past all others. */
    lemma EvictsFromWindow(heights: set<U64>, h: U64)
      requires forall g :: g in heights ==> g as nat + blockWindow as nat < TWO_TO_THE_64
      ensures heights - {Evicted(h)} == Retained(heights, blockWindow, h)
    {
    }

    /** Removes the block that leaves the window, if it is cached, with its transactions. */
    method Evict(h: U64)
      requires Valid() && h as nat + blockWindow as nat < TWO_TO_THE_64
      modifies this`blockIDToHeight, this`blockHeightToBlock, this`txCache
      ensures Valid()
      ensures Cached() == Retained(old(Cached()), blockWindow, h)
    {
      var out := Evicted(h);
      EvictsFromWindow(Cached(), h);
      if out in blockHeightToBlock {
        var evicted := blockHeightToBlock[out];
        assert evicted == canon(out);
        ProjectsLess(canon, blockIDToHeight, blockHeightToBlock, txCache, Cached(), out);
        var left := RemoveTxs(txCache, evicted.txs);
        SetCaches(blockIDToHeight - {evicted.id}, blockHeightToBlock - {evicted.height}, left, Cached() - {out});
      }
    }

    method SetCaches(ids: map<Id, U64>, blocks: map<U64, Block>, txs: map<Id, CachedTx>, ghost heights: set<U64>)
      requires Valid() && Projects(canon, ids, blocks, txs, heights)
      requires forall h :: h in heights ==> h as nat + blockWindow as nat < TWO_TO_THE_64
      modifies this`blockIDToHeight, this`blockHeightToBlock, this`txCache
      ensures Valid() && Cached() == heights
    {
      blockIDToHeight, blockHeightToBlock, txCache := ids, blocks, txs;
      assert Cached() == heights;
    }

    /** Removes the transactions of a block one by one. */
    method RemoveTxs(cache: map<Id, CachedTx>, txs: seq<Tx>) returns (r: map<Id, CachedTx>)
      ensures r == cache - TxIds(txs, |txs|)
    {
      r := cache;
      var i := 0;
      while i < |txs|
        invariant i <= |txs|
        invariant r == cache - TxIds(txs, i)
      {
        assert TxIds(txs, i + 1) == TxIds(txs, i) + {txs[i].id};
        r := r - {txs[i].id};
        i := i + 1;
      }
    }

    /** Adds the transactions of a block one by one. */
    method AddTxs(cache: map<Id, CachedTx>, txs: seq<Tx>, h: U64) returns (r: map<Id, CachedTx>)
      ensures r == WithTxs(cache, txs, h, |txs|)
    {
      r := cache;
      var i := 0;
      while i < |txs|
        invariant i <= |txs|
        invariant r == WithTxs(cache, txs, h, i)
      {
        r := r[txs[i].id := CachedTx(h, i)];
        i := i + 1;
      }
    }

    /** insertBlockIntoCache of a block of the chain. */
    method InsertBlockIntoCache(blk: Block)
      requires Valid() && blk == canon(blk.height) && blk.height as nat + blockWindow as nat < TWO_TO_THE_64
      modifies this`blockIDToHeight, this`blockHeightToBlock, this`txCache, this`lastHeight
      ensures Valid()
      ensures Cached() == Insert(old(Cached()), blockWindow, blk.height) && lastHeight == blk.height
    {
      Evict(blk.height);
      assert Cached() == Retained(old(Cached()), blockWindow, blk.height);
      AddBlock(blk);
      SetLastHeight(blk.height);
    }

    method SetLastHeight(h: U64)
      requires Valid()
      modifies this`lastHeight
      ensures Valid() && lastHeight == h
    {
      lastHeight := h;
    }

    method AddBlock(blk: Block)
      requires Valid() && blk == canon(blk.height) && blk.height as nat + blockWindow as nat < TWO_TO_THE_64
      modifies this`blockIDToHeight, this`blockHeightToBlock, this`txCache
      ensures Valid() && Cached() == old(Cached()) + {blk.height}
    {
      hide Projects, BlocksOk, SoundCanon;
      var h := blk.height;
      ProjectsMore(canon, blockIDToHeight, blockHeightToBlock, txCache, Cached(), h);
      var txs := AddTxs(txCache, blk.txs, h);
      SetCaches(blockIDToHeight[blk.id := h], blockHeightToBlock[h := blk], txs, Cached() + {h});
    }

    /** storeBlock: puts the block and deletes the one that leaves the window, in one batch. */
    method StoreBlock(blk: Block)
      requires Valid() && blk == canon(blk.height) && blk.height as nat + blockWindow as nat < TWO_TO_THE_64
      modifies this`blockDB
      ensures Valid() && Stored() == Insert(old(Stored()), blockWindow, blk.height)
    {
      EvictsFromWindow(Stored() + {blk.height}, blk.height);
      SetDB(blockDB[blk.height := blk] - {Evicted(blk.height)}, Stored() + {blk.height} - {Evicted(blk.height)});
    }

    method SetDB(db: map<U64, Block>, ghost heights: set<U64>)
      requires Valid() && db.Keys == heights && BlocksOk(canon, db, heights)
      requires forall h :: h in heights ==> h as nat + blockWindow as nat < TWO_TO_THE_64
      modifies this`blockDB
      ensures Valid() && Stored() == heights
    {
      blockDB := db;
    }

    /** Notify of an accepted block. */
    method Notify(blk: Block)
      requires Valid() && blk == canon(blk.height) && blk.height as nat + blockWindow as nat < TWO_TO_THE_64
      modifies this
      ensures Valid() && lastHeight == blk.height
      ensures Cached() == Insert(old(Cached()), blockWindow, blk.height)
      ensures Stored() == Insert(old(Stored()), blockWindow, blk.height)
    {
      InsertBlockIntoCache(blk);
      StoreBlock(blk);
    }

    // ---- Rebuilding --------------------------------------------------------------------------

    /** initBlocks: inserts the stored blocks in height order, then drops the stored blocks more than a
        window below the last one. */
    method InitBlocks()
      requires Valid() && Cached() == {} && lastHeight == NO_HEIGHT
      modifies this
      ensures Valid() && Cached() == Unsuperseded(old(Stored()), blockWindow)
      ensures IsLatest(old(Stored()), lastHeight)
      ensures forall h :: h in Stored() <==> h in old(Stored()) && lastHeight as nat <= h as nat + blockWindow as nat
    {
      InsertStored();
      if lastHeight > blockWindow {
        var lastRetainedHeight: U64 := lastHeight - blockWindow;
        ghost var kept := set h | h in Stored() && lastRetainedHeight <= h;
        var range := set h | h in blockDB && h < lastRetainedHeight;
        SetDB(blockDB - range, kept);
      }
    }

    /** The loop of initBlocks. The iterator yields the stored blocks in height order. */
    method InsertStored()
      requires Valid() && Cached() == {} && lastHeight == NO_HEIGHT
      modifies this`blockIDToHeight, this`blockHeightToBlock, this`txCache, this`lastHeight
      ensures Valid() && Cached() == Unsuperseded(Stored(), blockWindow)
      ensures IsLatest(Stored(), lastHeight)
    {
      hide Projects, Retained;
      var rest := blockDB.Keys;
      ghost var done: set<U64> := {};
      while rest != {}
        invariant Valid() && blockDB == old(blockDB)
        invariant Split(Stored(), done, rest)
        invariant Cached() == Unsuperseded(done, blockWindow)
        invariant IsLatest(done, lastHeight)
        decreases rest
      {
        LeastExists(rest);
        var h: U64 :| h in rest && forall g :: g in rest ==> h <= g;
        SplitAdvances(Stored(), done, rest, h);
        InsertUnsuperseded(done, blockWindow, h);
        InsertBlockIntoCache(blockDB[h]);
        done, rest := done + {h}, rest - {h};
      }
      assert done == Stored();
    }

    // ---- Queries -----------------------------------------------------------------------------

    method GetLatestBlock() returns (r: Option<Block>)
      requires Valid()
      ensures r == if lastHeight != NO_HEIGHT && lastHeight in Cached() then Some(canon(lastHeight)) else None
    {
      if lastHeight == NO_HEIGHT || lastHeight !in blockHeightToBlock {
        return None;
      }
      r := Some(blockHeightToBlock[lastHeight]);
    }

    /** GetBlock finds a cached block by its ID, and only then. */
    method GetBlock(blkID: Id) returns (r: Option<Block>)
      requires Valid()
      ensures r.Some? ==> r.value.height in Cached() && r.value == canon(r.value.height) && r.value.id == blkID
      ensures r.None? ==> forall h :: h in Cached() ==> canon(h).id != blkID
    {
      if blkID !in blockIDToHeight || blockIDToHeight[blkID] !in blockHeightToBlock {
        return None;
      }
      r := Some(blockHeightToBlock[blockIDToHeight[blkID]]);
    }

    /** GetTransaction finds a transaction exactly when a cached block holds it, with its block's time and
        its own result; neither of its internal errors can happen. */
    method GetTransaction(txID: Id) returns (found: Option<(Tx, I64, TxResult)>, mismatch: bool)
      requires Valid()
      ensures !mismatch
      ensures found.Some? ==>
                exists h, i :: h in Cached() && 0 <= i < |canon(h).txs| && canon(h).txs[i].id == txID
                               && found.value == (canon(h).txs[i], canon(h).timestamp, canon(h).results[i])
      ensures found.None? ==>
                forall h, i :: h in Cached() && 0 <= i < |canon(h).txs| ==> canon(h).txs[i].id != txID
    {
      if txID !in txCache {
        return None, false;
      }
      var cached := txCache[txID];
      if cached.blkHeight !in blockHeightToBlock {
        return None, false;
      }
      var blk := blockHeightToBlock[cached.blkHeight];
      if |blk.txs| <= cached.index || |blk.results| <= cached.index {
        return None, true;
      }
      found := Some((blk.txs[cached.index], blk.timestamp, blk.results[cached.index]));
      mismatch := false;
    }
  }

  /** The heights h of a set that are not followed by h + window in it: what is left of the set after
      inserting its heights in order. */
  function Unsuperseded(heights: set<U64>, window: U64): set<U64> {
    set h | h in heights && forall g :: g in heights ==> g as nat != h as nat + window as nat
  }

  lemma InsertUnsuperseded(done: set<U64>, window: U64, h: U64)
    requires 0 < window && (forall g :: g in done ==> g < h)
    ensures Insert(Unsuperseded(done, window), window, h) == Unsuperseded(done + {h}, window)
  {
  }

  ghost predicate IsLatest(heights: set<U64>, last: U64) {
    if heights == {} then last == NO_HEIGHT else last in heights && forall h :: h in heights ==> h <= last
  }

  /** The heights of a set split into those done and those still to come, all of them above. */
  ghost predicate Split(heights: set<U64>, done: set<U64>, rest: set<U64>) {
    && done + rest == heights
    && forall g, h :: g in done && h in rest ==> g < h
  }

  lemma SplitAdvances(heights: set<U64>, done: set<U64>, rest: set<U64>, h: U64)
    requires Split(heights, done, rest) && h in rest && (forall g :: g in rest ==> h <= g)
    ensures Split(heights, done + {h}, rest - {h}) && h in heights
    ensures (forall g :: g in done ==> g < h) && IsLatest(done + {h}, h)
  {
  }

  lemma LesserIsLeast(heights: set<U64>, x: U64, m: U64)
    requires x in heights && m in heights && forall g :: g in heights - {x} ==> m <= g
    ensures exists h :: h in heights && forall g :: g in heights ==> h <= g
  {
    var least := if x <= m then x else m;
    forall g | g in heights ensures least <= g {
      assert g == x || g in heights - {x};
    }
  }

  lemma {:induction false} LeastExists(heights: set<U64>)
    requires heights != {}
    ensures exists h :: h in heights && forall g :: g in heights ==> h <= g
    decreases heights
  {
    var x :| x in heights;
    var rest := heights - {x};
    if rest == {} {
      assert heights == {x};
    } else {
      LeastExists(rest);
      var m :| m in rest && forall g :: g in rest ==> m <= g;
      LesserIsLeast(heights, x, m);
    }
  }

  /** Opens an indexer on a database; refused for a window of zero or beyond the maximum. */
  method New(canon: Canon, blockWindow: U64, db: map<U64, Block>) returns (i: Indexer?)
    requires SoundCanon(canon) && BlocksOk(canon, db, db.Keys)
    requires forall h :: h in db ==> h as nat + MAX_BLOCK_WINDOW < TWO_TO_THE_64
    ensures i == null <==> blockWindow == 0 || blockWindow > MAX_BLOCK_WINDOW
    ensures i != null ==>
              && fresh(i) && i.canon == canon && i.blockWindow == blockWindow
              && i.Valid() && i.Cached() == Unsuperseded(db.Keys, blockWindow) && IsLatest(db.Keys, i.lastHeight)
              && forall h :: h in i.Stored() <==> h in db && i.lastHeight as nat <= h as nat + blockWindow as nat
  {
    if blockWindow > MAX_BLOCK_WINDOW || blockWindow == 0 {
      return null;
    }
    i := new Indexer(canon, blockWindow, db);
    i.InitBlocks();
  }
}
