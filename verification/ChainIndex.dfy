/** The persistent index of accepted blocks: three maps in one key-value database, a sliding window that
    expires blocks as new ones come in, and a sweep at startup. */
module ChainIndex {
  import opened Bytes
  import WireBytes

  // ---- Keys ----------------------------------------------------------------------------------

  const BLOCK_PREFIX: Byte := 0
  const ID_HEIGHT_PREFIX: Byte := 1
  const HEIGHT_ID_PREFIX: Byte := 2
  const LAST_ACCEPTED_BYTE: Byte := 3

  const LAST_ACCEPTED_KEY: seq<Byte> := [LAST_ACCEPTED_BYTE]

  /** The last n big-endian bytes of v. */
  function BigEndian(v: nat, n: nat): (b: seq<Byte>)
    ensures |b| == n
  {
    if n == 0 then [] else BigEndian(v / 256, n - 1) + [v % 256]
  }

  function FromBigEndian(b: seq<Byte>): nat {
    if b == [] then 0 else 256 * FromBigEndian(b[..|b| - 1]) + b[|b| - 1]
  }

  lemma {:induction false} BigEndianReadsBack(v: nat, n: nat)
    requires v < Pow256(n)
    ensures FromBigEndian(BigEndian(v, n)) == v
  {
    if n > 0 {
      BigEndianReadsBack(v / 256, n - 1);
      assert BigEndian(v, n)[..n - 1] == BigEndian(v / 256, n - 1);
    }
  }

  lemma {:induction false} FromBigEndianWritesBack(b: seq<Byte>)
    ensures FromBigEndian(b) < Pow256(|b|)
    ensures BigEndian(FromBigEndian(b), |b|) == b
  {
    if b != [] {
      FromBigEndianWritesBack(b[..|b| - 1]);
      assert b == b[..|b| - 1] + [b[|b| - 1]];
    }
  }

  function BigWord(v: U64): (b: seq<Byte>)
    ensures |b| == WORD_LEN && FromBigEndian(b) == v
  {
    Pow256Of8();
    BigEndianReadsBack(v, WORD_LEN);
    BigEndian(v, WORD_LEN)
  }

  function HeightOf(key: seq<Byte>): U64
    requires |key| == 9
  {
    Pow256Of8();
    FromBigEndianWritesBack(key[1..]);
    FromBigEndian(key[1..])
  }

  function BlockKey(h: U64): (k: seq<Byte>)
    ensures |k| == 9 && k[0] == BLOCK_PREFIX && HeightOf(k) == h
  {
    assert ([BLOCK_PREFIX] + BigWord(h))[1..] == BigWord(h);
    [BLOCK_PREFIX] + BigWord(h)
  }

  function HeightIdKey(h: U64): (k: seq<Byte>)
    ensures |k| == 9 && k[0] == HEIGHT_ID_PREFIX && HeightOf(k) == h
  {
    assert ([HEIGHT_ID_PREFIX] + BigWord(h))[1..] == BigWord(h);
    [HEIGHT_ID_PREFIX] + BigWord(h)
  }

  function IdOf(key: seq<Byte>): Id
    requires |key| == 33
  {
    key[1..]
  }

  function IdHeightKey(id: Id): (k: seq<Byte>)
    ensures |k| == 33 && k[0] == ID_HEIGHT_PREFIX && IdOf(k) == id
  {
    assert ([ID_HEIGHT_PREFIX] + id)[1..] == id;
    [ID_HEIGHT_PREFIX] + id
  }

  /** The order of keys in the database. */
  predicate LexLess(a: seq<Byte>, b: seq<Byte>) {
    b != [] && (a == [] || a[0] < b[0] || (a[0] == b[0] && LexLess(a[1..], b[1..])))
  }

  lemma {:induction false} LexLessSnoc(a: seq<Byte>, x: Byte, b: seq<Byte>, y: Byte)
    requires |a| == |b|
    ensures LexLess(a + [x], b + [y]) <==> LexLess(a, b) || (a == b && x < y)
  {
    if a == [] {
      assert LexLess([], []) == false;
      assert (a + [x])[1..] == [] && (b + [y])[1..] == [];
    } else {
      assert (a + [x])[1..] == a[1..] + [x];
      assert (b + [y])[1..] == b[1..] + [y];
      LexLessSnoc(a[1..], x, b[1..], y);
      assert a == b <==> a[0] == b[0] && a[1..] == b[1..] by {
        assert a == [a[0]] + a[1..] && b == [b[0]] + b[1..];
      }
    }
  }

  /** Big-endian words of one width are in byte order exactly when their values are in order. */
  lemma {:induction false} BigEndianOrder(u: nat, v: nat, n: nat)
    requires u < Pow256(n) && v < Pow256(n)
    ensures LexLess(BigEndian(u, n), BigEndian(v, n)) <==> u < v
    ensures BigEndian(u, n) == BigEndian(v, n) <==> u == v
  {
    if n > 0 {
      BigEndianOrder(u / 256, v / 256, n - 1);
      LexLessSnoc(BigEndian(u / 256, n - 1), u % 256, BigEndian(v / 256, n - 1), v % 256);
      BigEndianReadsBack(u, n);
      BigEndianReadsBack(v, n);
    }
  }

  /** So height keys sort numerically. */
  lemma HeightKeysSort(g: U64, h: U64)
    ensures LexLess(HeightIdKey(g), HeightIdKey(h)) <==> g < h
  {
    Pow256Of8();
    BigEndianOrder(g, h, 8);
    assert HeightIdKey(g)[1..] == BigEndian(g, 8);
    assert HeightIdKey(h)[1..] == BigEndian(h, 8);
  }

  lemma {:induction false} LexLessOrders(a: seq<Byte>, b: seq<Byte>)
    ensures a == b || LexLess(a, b) || LexLess(b, a)
    ensures !(LexLess(a, b) && LexLess(b, a)) && !LexLess(a, a)
  {
    if a != [] && b != [] {
      LexLessOrders(a[1..], b[1..]);
      assert a == [a[0]] + a[1..] && b == [b[0]] + b[1..];
    }
    if a != [] {
      LexLessOrders(a[1..], a[1..]);
    }
  }

  lemma {:induction false} LexLessTransitive(a: seq<Byte>, b: seq<Byte>, c: seq<Byte>)
    requires LexLess(a, b) && LexLess(b, c)
    ensures LexLess(a, c)
  {
    if a != [] && a[0] == b[0] == c[0] {
      LexLessTransitive(a[1..], b[1..], c[1..]);
    }
  }

  // ---- The database --------------------------------------------------------------------------

  type Database = map<seq<Byte>, seq<Byte>>

  datatype Op = Put(key: seq<Byte>, value: seq<Byte>) | Delete(key: seq<Byte>)

  function Apply(db: Database, op: Op): Database {
    match op
    case Put(key, value) => db[key := value]
    case Delete(key) => db - {key}
  }

  /** A batch is written as a whole. */
  function Write(db: Database, batch: seq<Op>): Database {
    if batch == [] then db else Apply(Write(db, batch[..|batch| - 1]), batch[|batch| - 1])
  }

  lemma WriteMore(db: Database, batch: seq<Op>, op: Op)
    ensures Write(db, batch + [op]) == Apply(Write(db, batch), op)
  {
    assert (batch + [op])[..|batch|] == batch;
  }

  ghost predicate Sorted(keys: seq<seq<Byte>>) {
    forall i, j :: 0 <= i < j < |keys| ==> LexLess(keys[i], keys[j])
  }

  /** The keys that an iterator over a prefix goes through, in byte order. */
  method KeysWithPrefix(db: Database, prefix: Byte) returns (keys: seq<seq<Byte>>)
    ensures Sorted(keys)
    ensures forall k :: k in keys <==> k in db && k != [] && k[0] == prefix
  {
    keys := [];
    var rest := db.Keys;
    while rest != {}
      invariant Sorted(keys) && rest <= db.Keys
      invariant forall k :: k in keys <==> k in db && k !in rest && k != [] && k[0] == prefix
      decreases rest
    {
      var k :| k in rest;
      if k != [] && k[0] == prefix {
        keys := Insert(keys, k);
      }
      rest := rest - {k};
    }
  }

  method Insert(keys: seq<seq<Byte>>, k: seq<Byte>) returns (r: seq<seq<Byte>>)
    requires Sorted(keys) && k !in keys
    ensures Sorted(r) && forall x :: x in r <==> x == k || x in keys
  {
    var i := 0;
    while i < |keys| && LexLess(keys[i], k)
      invariant i <= |keys|
      invariant forall j :: 0 <= j < i ==> LexLess(keys[j], k)
    {
      i := i + 1;
    }
    r := keys[..i] + [k] + keys[i..];
    forall j | i <= j < |keys| ensures LexLess(k, keys[j]) {
      LexLessOrders(keys[i], k);
      if j > i {
        LexLessTransitive(k, keys[i], keys[j]);
      }
    }
    assert keys == keys[..i] + keys[i..];
  }

  // ---- What the database holds ---------------------------------------------------------------

  datatype Block = Block(id: Id, height: U64, bytes: seq<Byte>)

  /** The accepted chain: one block at each height, all with different IDs, each read back from its
      bytes by the parser. */
  datatype Canon = Canon(block: U64 -> Block, parse: seq<Byte> -> Option<Block>)

  ghost predicate SoundCanon(c: Canon) {
    && (forall h: U64 :: c.block(h).height == h && c.parse(c.block(h).bytes) == Some(c.block(h)))
    && (forall g: U64, h: U64 :: c.block(g).id == c.block(h).id ==> g == h)
  }

  /** The blocks by height. */
  ghost predicate BlocksOk(c: Canon, db: Database, heights: set<nat>) {
    forall h: U64 ::
      (BlockKey(h) in db <==> h in heights) && (h in heights ==> db[BlockKey(h)] == c.block(h).bytes)
  }

  /** The IDs by height; nothing else is filed with them. */
  ghost predicate HeightIdsOk(c: Canon, db: Database, heights: set<nat>) {
    && (forall h: U64 ::
          (HeightIdKey(h) in db <==> h in heights) && (h in heights ==> db[HeightIdKey(h)] == c.block(h).id))
    && (forall k :: k in db && k != [] && k[0] == HEIGHT_ID_PREFIX ==> |k| == 9 && k == HeightIdKey(HeightOf(k)))
  }

  /** The heights by ID. */
  ghost predicate IdHeightsOk(c: Canon, db: Database, heights: set<nat>) {
    && (forall h: U64 :: h in heights ==> IdHeightKey(c.block(h).id) in db)
    && (forall id: Id :: IdHeightKey(id) in db ==>
          exists h: U64 :: h in heights && c.block(h).id == id && db[IdHeightKey(id)] == BigWord(h))
  }

  ghost predicate LastOk(db: Database, last: Option<U64>) {
    && (LAST_ACCEPTED_KEY in db <==> last.Some?)
    && (last.Some? ==> db[LAST_ACCEPTED_KEY] == BigWord(last.value))
  }

  /** The database holds the blocks at these heights, under three mutually inverse maps, and the height of
      the last accepted one. */
  ghost predicate Holds(c: Canon, db: Database, heights: set<nat>, last: Option<U64>) {
    && BlocksOk(c, db, heights)
    && HeightIdsOk(c, db, heights)
    && IdHeightsOk(c, db, heights)
    && LastOk(db, last)
    && (forall h :: h in heights ==> h < TWO_TO_THE_64)
  }

  /** Two databases agree on the keys with a prefix. */
  ghost predicate Agree(a: Database, b: Database, prefix: Byte) {
    forall k :: k != [] && k[0] == prefix ==> (k in a <==> k in b) && (k in a ==> a[k] == b[k])
  }

  lemma AgreeingBlocks(c: Canon, a: Database, b: Database, heights: set<nat>)
    ensures BlocksOk(c, a, heights) && Agree(a, b, BLOCK_PREFIX) ==> BlocksOk(c, b, heights)
  {
  }

  lemma AgreeingHeightIds(c: Canon, a: Database, b: Database, heights: set<nat>)
    ensures HeightIdsOk(c, a, heights) && Agree(a, b, HEIGHT_ID_PREFIX) ==> HeightIdsOk(c, b, heights)
  {
  }

  lemma AgreeingIdHeights(c: Canon, a: Database, b: Database, heights: set<nat>)
    ensures IdHeightsOk(c, a, heights) && Agree(a, b, ID_HEIGHT_PREFIX) ==> IdHeightsOk(c, b, heights)
  {
  }

  function WithBlock(db: Database, b: Block): Database {
    db[IdHeightKey(b.id) := BigWord(b.height)][HeightIdKey(b.height) := b.id][BlockKey(b.height) := b.bytes]
  }

  function WithoutBlock(db: Database, b: Block): Database {
    db - {BlockKey(b.height)} - {IdHeightKey(b.id)} - {HeightIdKey(b.height)}
  }

  lemma PutBlockKey(c: Canon, db: Database, heights: set<nat>, h: U64)
    requires BlocksOk(c, db, heights)
    ensures BlocksOk(c, db[BlockKey(h) := c.block(h).bytes], heights + {h})
    ensures BlocksOk(c, db - {BlockKey(h)}, heights - {h})
  {
  }

  lemma PutHeightIdKey(c: Canon, db: Database, heights: set<nat>, h: U64)
    requires HeightIdsOk(c, db, heights)
    ensures HeightIdsOk(c, db[HeightIdKey(h) := c.block(h).id], heights + {h})
    ensures HeightIdsOk(c, db - {HeightIdKey(h)}, heights - {h})
  {
  }

  lemma PutIdHeightKey(c: Canon, db: Database, heights: set<nat>, h: U64)
    requires SoundCanon(c) && IdHeightsOk(c, db, heights)
    ensures IdHeightsOk(c, db[IdHeightKey(c.block(h).id) := BigWord(h)], heights + {h})
    ensures IdHeightsOk(c, db - {IdHeightKey(c.block(h).id)}, heights - {h})
  {
    var put, deleted := db[IdHeightKey(c.block(h).id) := BigWord(h)], db - {IdHeightKey(c.block(h).id)};
    forall id: Id | IdHeightKey(id) in put
      ensures exists g: U64 :: g in heights + {h} && c.block(g).id == id && put[IdHeightKey(id)] == BigWord(g)
    {
      if id == c.block(h).id {
        assert h in heights + {h};
      } else {
        assert IdHeightKey(id) in db;
        var g: U64 :| g in heights && c.block(g).id == id && db[IdHeightKey(id)] == BigWord(g);
        assert g in heights + {h};
      }
    }
    forall id: Id | IdHeightKey(id) in deleted
      ensures exists g: U64 :: g in heights - {h} && c.block(g).id == id && deleted[IdHeightKey(id)] == BigWord(g)
    {
      assert IdHeightKey(id) in db;
      var g: U64 :| g in heights && c.block(g).id == id && db[IdHeightKey(id)] == BigWord(g);
      assert g in heights - {h};
    }
  }

  /** The three maps, each with its own heights. */
  ghost predicate Maps(c: Canon, db: Database, blocks: set<nat>, heightIds: set<nat>, idHeights: set<nat>, last: Option<U64>) {
    BlocksOk(c, db, blocks) && HeightIdsOk(c, db, heightIds) && IdHeightsOk(c, db, idHeights) && LastOk(db, last)
  }

  lemma BlockKeyMaps(c: Canon, db: Database, bs: set<nat>, hs: set<nat>, ids: set<nat>, last: Option<U64>, h: U64)
    requires Maps(c, db, bs, hs, ids, last)
    ensures Maps(c, db[BlockKey(h) := c.block(h).bytes], bs + {h}, hs, ids, last)
    ensures Maps(c, db - {BlockKey(h)}, bs - {h}, hs, ids, last)
  {
    PutBlockKey(c, db, bs, h);
    OtherKey(c, db, hs, ids, bs, last, BlockKey(h), c.block(h).bytes);
  }

  lemma HeightIdKeyMaps(c: Canon, db: Database, bs: set<nat>, hs: set<nat>, ids: set<nat>, last: Option<U64>, h: U64)
    requires Maps(c, db, bs, hs, ids, last)
    ensures Maps(c, db[HeightIdKey(h) := c.block(h).id], bs, hs + {h}, ids, last)
    ensures Maps(c, db - {HeightIdKey(h)}, bs, hs - {h}, ids, last)
  {
    PutHeightIdKey(c, db, hs, h);
    OtherKey(c, db, hs, ids, bs, last, HeightIdKey(h), c.block(h).id);
  }

  lemma IdHeightKeyMaps(c: Canon, db: Database, bs: set<nat>, hs: set<nat>, ids: set<nat>, last: Option<U64>, h: U64)
    requires SoundCanon(c) && Maps(c, db, bs, hs, ids, last)
    ensures Maps(c, db[IdHeightKey(c.block(h).id) := BigWord(h)], bs, hs, ids + {h}, last)
    ensures Maps(c, db - {IdHeightKey(c.block(h).id)}, bs, hs, ids - {h}, last)
  {
    PutIdHeightKey(c, db, ids, h);
    OtherKey(c, db, hs, ids, bs, last, IdHeightKey(c.block(h).id), BigWord(h));
  }

  /** Writing or deleting a key leaves the maps under other prefixes as they are. */
  lemma OtherKey(
    c: Canon, db: Database, hs: set<nat>, ids: set<nat>, bs: set<nat>, last: Option<U64>, k: seq<Byte>, v: seq<Byte>)
    requires k != []
    ensures BlocksOk(c, db, bs) && k[0] != BLOCK_PREFIX ==> BlocksOk(c, db[k := v], bs) && BlocksOk(c, db - {k}, bs)
    ensures HeightIdsOk(c, db, hs) && k[0] != HEIGHT_ID_PREFIX ==>
              HeightIdsOk(c, db[k := v], hs) && HeightIdsOk(c, db - {k}, hs)
    ensures IdHeightsOk(c, db, ids) && k[0] != ID_HEIGHT_PREFIX ==>
              IdHeightsOk(c, db[k := v], ids) && IdHeightsOk(c, db - {k}, ids)
    ensures LastOk(db, last) && k[0] != LAST_ACCEPTED_BYTE ==> LastOk(db[k := v], last) && LastOk(db - {k}, last)
  {
    AgreeingBlocks(c, db, db[k := v], bs);
    AgreeingBlocks(c, db, db - {k}, bs);
    AgreeingHeightIds(c, db, db[k := v], hs);
    AgreeingHeightIds(c, db, db - {k}, hs);
    AgreeingIdHeights(c, db, db[k := v], ids);
    AgreeingIdHeights(c, db, db - {k}, ids);
  }

  /** Writing a block adds its height. */
  lemma WithBlockHolds(c: Canon, db: Database, heights: set<nat>, last: Option<U64>, h: U64)
    requires SoundCanon(c) && Holds(c, db, heights, last)
    ensures Holds(c, WithBlock(db, c.block(h)), heights + {h}, last)
  {
    var b := c.block(h);
    var d1 := db[IdHeightKey(b.id) := BigWord(h)];
    var d2 := d1[HeightIdKey(h) := b.id];
    IdHeightKeyMaps(c, db, heights, heights, heights, last, h);
    HeightIdKeyMaps(c, d1, heights, heights, heights + {h}, last, h);
    BlockKeyMaps(c, d2, heights, heights + {h}, heights + {h}, last, h);
  }

  /** Deleting a block removes its height. */
  lemma WithoutBlockHolds(c: Canon, db: Database, heights: set<nat>, last: Option<U64>, h: U64)
    requires SoundCanon(c) && Holds(c, db, heights, last)
    ensures Holds(c, WithoutBlock(db, c.block(h)), heights - {h}, last)
  {
    var b := c.block(h);
    var d1 := db - {BlockKey(h)};
    var d2 := d1 - {IdHeightKey(b.id)};
    BlockKeyMaps(c, db, heights, heights, heights, last, h);
    IdHeightKeyMaps(c, d1, heights - {h}, heights, heights, last, h);
    HeightIdKeyMaps(c, d2, heights - {h}, heights, heights - {h}, last, h);
  }

  lemma PutLastHolds(c: Canon, db: Database, heights: set<nat>, last: Option<U64>, h: U64)
    requires Holds(c, db, heights, last)
    ensures Holds(c, db[LAST_ACCEPTED_KEY := BigWord(h)], heights, Some(h))
  {
    OtherKey(c, db, heights, heights, heights, last, LAST_ACCEPTED_KEY, BigWord(h));
  }

  // ---- The keys as bytes ---------------------------------------------------------------------

  function BigBytes(w: U64): seq<Byte> {
    [w / 0x100_0000_0000_0000,
     w / 0x1_0000_0000_0000 % 0x100,
     w / 0x100_0000_0000 % 0x100,
     w / 0x1_0000_0000 % 0x100,
     w / 0x100_0000 % 0x100,
     w / 0x1_0000 % 0x100,
     w / 0x100 % 0x100,
     w % 0x100]
  }

  lemma {:induction false} BigIsReversed(v: nat, n: nat)
    ensures forall i :: 0 <= i < n ==> BigEndian(v, n)[i] == LittleEndian(v, n)[n - 1 - i]
  {
    if n > 0 {
      BigIsReversed(v / 256, n - 1);
    }
  }

  lemma BigWordBytes(w: U64)
    ensures BigWord(w) == BigBytes(w)
  {
    hide WireBytes.EightBytes;
    BigIsReversed(w, 8);
    WireBytes.WordBytes(w);
    EightReversed(w);
    assert forall i :: 0 <= i < 8 ==> BigWord(w)[i] == BigBytes(w)[i];
  }

  lemma EightReversed(w: U64)
    ensures forall i :: 0 <= i < 8 ==> BigBytes(w)[i] == WireBytes.EightBytes(w)[7 - i]
  {
  }

  /** The keys on disk: a prefix, and the height with its high byte first or the ID. */
  lemma KeyBytes(h: U64, id: Id)
    ensures BlockKey(h) == [0x00] + BigBytes(h)
    ensures IdHeightKey(id) == [0x01] + id
    ensures HeightIdKey(h) == [0x02] + BigBytes(h)
    ensures LAST_ACCEPTED_KEY == [0x03]
  {
    BigWordBytes(h);
  }

  // ---- The heights kept ----------------------------------------------------------------------

  /** What an index amounts to: the heights it holds, the last accepted one, and the window it runs with. */
  datatype Kept = Kept(heights: set<nat>, last: Option<nat>, window: nat)

  /** The height that accepting height h expires: none without a window, none while the subtraction would
      wrap around, and never genesis. */
  function Expires(window: nat, h: nat): Option<nat> {
    if window == 0 || h <= window then None else Some(h - window)
  }

  /** Accepting height h; None when the height to expire is not there. */
  function Accepted(k: Kept, h: nat): Option<Kept> {
    match Expires(k.window, h)
    case None => Some(k.(heights := k.heights + {h}, last := Some(h)))
    case Some(e) =>
      if e in k.heights then Some(k.(heights := k.heights + {h} - {e}, last := Some(h))) else None
  }

  /** Starting on the same database with some window: the sweep keeps genesis and the window. */
  function Swept(k: Kept, window: nat): Kept {
    if window == 0 || k.last.None? || k.last.value <= window then k.(window := window)
    else k.(heights := (set h | h in k.heights && (h == 0 || k.last.value - window <= h)), window := window)
  }

  /** The window arithmetic on unsigned words. */
  lemma ExpiryWraps(window: U64, h: U64)
    ensures var expiry := (h - window) % TWO_TO_THE_64;
            if window == 0 || expiry == 0 || expiry >= h then Expires(window, h) == None
            else Expires(window, h) == Some(expiry)
  {
    if h < window {
      assert (h - window) % TWO_TO_THE_64 == h - window + TWO_TO_THE_64;
    }
  }

  /** What writeBlock puts into a batch. */
  function BlockPuts(b: Block): seq<Op> {
    [Put(IdHeightKey(b.id), BigWord(b.height)), Put(HeightIdKey(b.height), b.id), Put(BlockKey(b.height), b.bytes)]
  }

  function BlockDeletes(b: Block): seq<Op> {
    [Delete(BlockKey(b.height)), Delete(IdHeightKey(b.id)), Delete(HeightIdKey(b.height))]
  }

  lemma WritePuts(db: Database, batch: seq<Op>, b: Block)
    ensures Write(db, batch + BlockPuts(b)) == WithBlock(Write(db, batch), b)
  {
    var ops := BlockPuts(b);
    assert batch + ops == batch + [ops[0]] + [ops[1]] + [ops[2]];
    WriteMore(db, batch, ops[0]);
    WriteMore(db, batch + [ops[0]], ops[1]);
    WriteMore(db, batch + [ops[0]] + [ops[1]], ops[2]);
  }

  lemma WriteDeletes(db: Database, batch: seq<Op>, b: Block)
    ensures Write(db, batch + BlockDeletes(b)) == WithoutBlock(Write(db, batch), b)
  {
    var ops := BlockDeletes(b);
    assert batch + ops == batch + [ops[0]] + [ops[1]] + [ops[2]];
    WriteMore(db, batch, ops[0]);
    WriteMore(db, batch + [ops[0]], ops[1]);
    WriteMore(db, batch + [ops[0]] + [ops[1]], ops[2]);
  }

  class Index {
    const canon: Canon
    const window: U64
    var db: Database
    ghost var heights: set<nat>
    ghost var last: Option<U64>

    ghost predicate Valid()
      reads this
    {
      SoundCanon(canon) && Holds(canon, db, heights, last)
    }

    ghost function K(): Kept
      reads this
    {
      Kept(heights, match last case None => None case Some(n) => Some(n), window)
    }

    constructor (canon: Canon, window: U64, db: Database, ghost heights: set<nat>, ghost last: Option<U64>)
      requires SoundCanon(canon) && Holds(canon, db, heights, last)
      ensures Valid() && this.canon == canon && this.window == window && this.db == db
      ensures this.heights == heights && this.last == last
    {
      this.canon, this.window, this.db, this.heights, this.last := canon, window, db, heights, last;
    }

    // ---- Reading -----------------------------------------------------------------------------

    method GetLastAcceptedHeight() returns (r: Option<U64>)
      requires Valid()
      ensures r == last
    {
      if LAST_ACCEPTED_KEY !in db {
        return None;
      }
      var raw := db[LAST_ACCEPTED_KEY];
      r := ParseU64(raw);
    }

    /** ParseUInt64: a word of exactly eight bytes. */
    method ParseU64(raw: seq<Byte>) returns (r: Option<U64>)
      ensures forall h: U64 :: raw == BigWord(h) ==> r == Some(h)
    {
      if |raw| != WORD_LEN {
        return None;
      }
      Pow256Of8();
      FromBigEndianWritesBack(raw);
      r := Some(FromBigEndian(raw));
    }

    method GetBlockIDAtHeight(h: U64) returns (r: Option<Id>)
      requires Valid()
      ensures r == if h in heights then Some(canon.block(h).id) else None
    {
      if HeightIdKey(h) !in db {
        return None;
      }
      assert h in heights;
      r := Some(db[HeightIdKey(h)]);
    }

    method GetBlockIDHeight(id: Id) returns (r: Option<U64>)
      requires Valid()
      ensures r.Some? ==> r.value in heights && canon.block(r.value).id == id
      ensures r.None? ==> forall h: U64 :: h in heights ==> canon.block(h).id != id
    {
      if IdHeightKey(id) !in db {
        return None;
      }
      ghost var g: U64 :| g in heights && canon.block(g).id == id && db[IdHeightKey(id)] == BigWord(g);
      r := ParseU64(db[IdHeightKey(id)]);
    }

    method GetBlockByHeight(h: U64) returns (r: Option<Block>)
      requires Valid()
      ensures r == if h in heights then Some(canon.block(h)) else None
    {
      if BlockKey(h) !in db {
        return None;
      }
      assert h in heights;
      r := canon.parse(db[BlockKey(h)]);
    }

    /** GetBlock finds a block exactly when it is kept, and the one with that ID. */
    method GetBlock(id: Id) returns (r: Option<Block>)
      requires Valid()
      ensures r.Some? ==> r.value.height in heights && r.value == canon.block(r.value.height) && r.value.id == id
      ensures r.None? ==> forall h: U64 :: h in heights ==> canon.block(h).id != id
    {
      var h := GetBlockIDHeight(id);
      if h.None? {
        return None;
      }
      r := GetBlockByHeight(h.value);
    }

    // ---- Writing -----------------------------------------------------------------------------

    /** Once written, the batch leaves these heights and this last accepted one. */
    ghost predicate Leaves(batch: seq<Op>, after: set<nat>, last: Option<U64>)
      reads this
    {
      Holds(canon, Write(db, batch), after, last)
    }

    method Commit(batch: seq<Op>, ghost after: set<nat>, ghost last: Option<U64>)
      requires SoundCanon(canon) && Leaves(batch, after, last)
      modifies this
      ensures Valid() && heights == after && this.last == last
    {
      db, heights, this.last := Write(db, batch), after, last;
    }

    /** Puts the last accepted height into a new batch. */
    method PutLast(h: U64) returns (batch: seq<Op>)
      requires Valid()
      ensures Leaves(batch, heights, Some(h))
    {
      batch := [Put(LAST_ACCEPTED_KEY, BigWord(h))];
      assert Write(db, batch) == db[LAST_ACCEPTED_KEY := BigWord(h)];
      PutLastHolds(canon, db, heights, last, h);
    }

    method WriteBlock(batch: seq<Op>, blk: Block, ghost after: set<nat>, ghost last: Option<U64>) returns (r: seq<Op>)
      requires Valid() && blk == canon.block(blk.height) && Leaves(batch, after, last)
      ensures Leaves(r, after + {blk.height as nat}, last)
    {
      WritePuts(db, batch, blk);
      WithBlockHolds(canon, Write(db, batch), after, last, blk.height);
      r := batch + BlockPuts(blk);
    }

    /** Deletes the block at a height, whose ID is looked up first. None when it is not there. */
    method DeleteBlock(batch: seq<Op>, h: U64, ghost after: set<nat>, ghost last: Option<U64>) returns (r: Option<seq<Op>>)
      requires Valid() && Leaves(batch, after, last)
      ensures r.Some? <==> h in heights
      ensures r.Some? ==> Leaves(r.value, after - {h as nat}, last)
    {
      var id := GetBlockIDAtHeight(h);
      if id.None? {
        return None;
      }
      assert BlockDeletes(canon.block(h)) == [Delete(BlockKey(h)), Delete(IdHeightKey(id.value)), Delete(HeightIdKey(h))];
      WriteDeletes(db, batch, canon.block(h));
      WithoutBlockHolds(canon, Write(db, batch), after, last, h);
      r := Some(batch + [Delete(BlockKey(h)), Delete(IdHeightKey(id.value)), Delete(HeightIdKey(h))]);
    }

    /** The batch of UpdateLastAccepted: the last accepted height, the new block, and the deletes of the one
        that leaves the window. */
    method AcceptBatch(blk: Block) returns (r: Option<seq<Op>>, ghost after: set<nat>)
      requires Valid() && blk == canon.block(blk.height)
      ensures r.Some? ==> Leaves(r.value, after, Some(blk.height))
      ensures Accepted(K(), blk.height) == if r.Some? then Some(Kept(after, Some(blk.height), window)) else None
    {
      hide Holds, SoundCanon, Write;
      var height := blk.height;
      var batch := PutLast(height);
      batch := WriteBlock(batch, blk, heights, Some(height));
      after := heights + {height as nat};
      var expiry: U64 := (height - window) % TWO_TO_THE_64;
      ExpiryWraps(window, height);
      if window == 0 || expiry == 0 || expiry >= height {
        return Some(batch), after;
      }
      r := DeleteBlock(batch, expiry, after, Some(height));
      after := after - {expiry as nat};
    }

    /** UpdateLastAccepted: records a block of the chain and expires the one that leaves the window. It
        fails, changing nothing, exactly when that one is not there. */
    method UpdateLastAccepted(blk: Block) returns (ok: bool)
      requires Valid() && blk == canon.block(blk.height)
      modifies this
      ensures Valid()
      ensures ok == Accepted(old(K()), blk.height).Some?
      ensures ok <==> window == 0 || blk.height <= window || blk.height - window in old(heights)
      ensures ok ==> last == Some(blk.height)
                     && heights == old(heights) + {blk.height as nat}
                                   - (if window == 0 || blk.height <= window then {} else {blk.height - window})
      ensures K() == if ok then Accepted(old(K()), blk.height).value else old(K())
      ensures !ok ==> db == old(db)
    {
      var batch, after := AcceptBatch(blk);
      if batch.None? {
        return false;
      }
      Commit(batch.value, after, Some(blk.height));
      ok := true;
    }

    /** SaveHistorical: records a block of the chain without accepting it. */
    method SaveHistorical(blk: Block)
      requires Valid() && blk == canon.block(blk.height)
      modifies this
      ensures Valid() && K() == old(K()).(heights := old(heights) + {blk.height as nat})
    {
      var batch := WriteBlock([], blk, heights, last);
      Commit(batch, heights + {blk.height as nat}, last);
    }

    // ---- The sweep ---------------------------------------------------------------------------

    /** Whether the first keys are those of heights below the threshold, all deleted but genesis. */
    ghost predicate SweptUpTo(keys: seq<seq<Byte>>, i: nat, threshold: nat, kept: set<nat>)
      reads this
    {
      && i <= |keys|
      && (forall k :: k in keys <==> k in db && k != [] && k[0] == HEIGHT_ID_PREFIX)
      && kept <= heights
      && (forall h :: h in heights && h !in kept ==> 0 < h < threshold)
      && (forall j :: 0 <= j < i && |keys[j]| == 9 ==> HeightOf(keys[j]) == 0 || HeightOf(keys[j]) !in kept)
    }

    /** Stopping at the first height in the window misses nothing below it. */
    lemma SweepIsComplete(keys: seq<seq<Byte>>, i: nat, threshold: nat, kept: set<nat>)
      requires HeightIdsOk(canon, db, heights) && SweptUpTo(keys, i, threshold, kept) && Sorted(keys)
      requires forall h :: h in heights ==> h < TWO_TO_THE_64
      requires i < |keys| ==> |keys[i]| == 9 && keys[i] == HeightIdKey(HeightOf(keys[i])) && threshold <= HeightOf(keys[i])
      ensures kept == set h | h in heights && (h == 0 || threshold <= h)
    {
      forall h | h in kept ensures h == 0 || threshold <= h {
        KeptIsInWindow(keys, i, threshold, kept, h);
      }
    }

    lemma KeptIsInWindow(keys: seq<seq<Byte>>, i: nat, threshold: nat, kept: set<nat>, h: U64)
      requires HeightIdsOk(canon, db, heights) && SweptUpTo(keys, i, threshold, kept) && Sorted(keys) && h in kept
      requires h < TWO_TO_THE_64
      requires i < |keys| ==> |keys[i]| == 9 && keys[i] == HeightIdKey(HeightOf(keys[i])) && threshold <= HeightOf(keys[i])
      ensures h == 0 || threshold <= h
    {
      assert h in heights && HeightIdKey(h) in keys;
      var j :| 0 <= j < |keys| && keys[j] == HeightIdKey(h);
      assert i <= j || h == 0;
      if i < j {
        assert LexLess(keys[i], keys[j]);
        HeightKeysSort(HeightOf(keys[i]), h);
      }
    }

    /** A key that the iterator yields is the key of a kept height. */
    lemma KeyIsHeight(keys: seq<seq<Byte>>, i: nat, threshold: nat, kept: set<nat>)
      requires HeightIdsOk(canon, db, heights) && SweptUpTo(keys, i, threshold, kept) && i < |keys|
      ensures |keys[i]| == 9 && keys[i] == HeightIdKey(HeightOf(keys[i])) && HeightOf(keys[i]) in heights
    {
      assert keys[i] in keys;
    }

    lemma SweepAdvances(keys: seq<seq<Byte>>, i: nat, threshold: nat, kept: set<nat>)
      requires SweptUpTo(keys, i, threshold, kept) && i < |keys| && |keys[i]| == 9 && HeightOf(keys[i]) < threshold
      ensures HeightOf(keys[i]) == 0 ==> SweptUpTo(keys, i + 1, threshold, kept)
      ensures HeightOf(keys[i]) != 0 ==> SweptUpTo(keys, i + 1, threshold, kept - {HeightOf(keys[i]) as nat})
    {
    }

    /** The loop of cleanupOnStartup. The iterator yields heights in order, so nothing is missed by
        stopping at the first one in the window. */
    method SweepBelow(threshold: U64) returns (batch: seq<Op>, ghost kept: set<nat>)
      requires Valid()
      ensures kept == set h | h in heights && (h == 0 || threshold <= h)
      ensures Leaves(batch, kept, last)
    {
      var keys := KeysWithPrefix(db, HEIGHT_ID_PREFIX);
      batch, kept := [], heights;
      var i := 0;
      while i < |keys|
        invariant SweptUpTo(keys, i, threshold, kept)
        invariant Leaves(batch, kept, last)
      {
        KeyIsHeight(keys, i, threshold, kept);
        var height := HeightOf(keys[i]);
        if height >= threshold {
          break;
        }
        SweepAdvances(keys, i, threshold, kept);
        if height != 0 {
          var deleted := DeleteBlock(batch, height, kept, last);
          batch, kept := deleted.value, kept - {height as nat};
        }
        i := i + 1;
      }
      SweepIsComplete(keys, i, threshold, kept);
    }

    /** cleanupOnStartup: deletes the blocks below the window but genesis. */
    method CleanupOnStartup()
      requires Valid()
      modifies this
      ensures Valid() && K() == Swept(old(K()), window)
      ensures last == old(last)
      ensures heights == if window == 0 || last.None? || last.value <= window then old(heights)
                         else set h | h in old(heights) && (h == 0 || last.value - window <= h)
    {
      var found := GetLastAcceptedHeight();
      var lastAcceptedHeight: U64 := if found.Some? then found.value else 0;
      if window == 0 || lastAcceptedHeight <= window {
        return;
      }
      var batch, kept := SweepBelow(lastAcceptedHeight - window);
      Commit(batch, kept, last);
    }
  }

  /** Opening the index: a compaction frequency of zero is an error; otherwise the sweep has run. */
  method New(canon: Canon, window: U64, frequency: U64, db: Database, ghost heights: set<nat>, ghost last: Option<U64>)
    returns (ci: Index?)
    requires SoundCanon(canon) && Holds(canon, db, heights, last)
    ensures ci == null <==> frequency == 0
    ensures ci != null ==> fresh(ci) && ci.Valid() && ci.window == window && ci.canon == canon
    ensures ci != null ==>
              ci.K() == Swept(Kept(heights, match last case None => None case Some(n) => Some(n), window), window)
  {
    if frequency == 0 {
      return null;
    }
    var index := new Index(canon, window, db, heights, last);
    index.CleanupOnStartup();
    ci := index;
  }
}
