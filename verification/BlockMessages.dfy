/** Blocks on the wire: fixed byte arrays, words, a nested context, and repeated transactions. */
module BlockMessages {
  import opened Bytes
  import opened Canoto
  import WireBytes
  import opened Transaction

  /** The transaction parser and the codec of the P-Chain context. */
  datatype Wire<!Action, !Auth, !Ctx> = Wire(
    parser: Parser<Action, Auth>,
    contextBytes: Ctx -> seq<Byte>,
    parseContext: seq<Byte> -> Option<Ctx>)

  ghost predicate FaithfulContext<Action, Auth, Ctx(!new)>(x: Wire<Action, Auth, Ctx>) {
    && (forall c :: x.parseContext(x.contextBytes(c)) == Some(c))
    && ReadsOnlyItsPrint(x.contextBytes, x.parseContext)
  }

  /** A nil context is absent from the wire, and so is a context with every field zero; a nil
      transaction is an empty entry, and so is a transaction without bytes. */
  datatype Block<Action, Auth, Ctx> = Block(
    parent: Id, timestamp: Bytes.I64, height: U64, context: Option<Ctx>,
    txs: seq<Option<Tx<Action, Auth>>>, stateRoot: Id)

  const PRNT := 1
  const TMSTMP := 2
  const HGHT := 3
  const BLOCK_CONTEXT := 4
  const TXS := 5
  const STATE_ROOT := 6

  function ZeroBlock<Action, Auth, Ctx>(): Block<Action, Auth, Ctx> {
    Block(EmptyId, 0, 0, None, [], EmptyId)
  }

  function TxBytes<Action, Auth>(tx: Tx<Action, Auth>): seq<Byte> {
    tx.bytes
  }

  function IdPart(id: Id): Option<Raw> {
    if id == EmptyId then None else Some(Blob(id))
  }

  function WordPart(w: U64): Option<Raw> {
    if w == 0 then None else Some(Fixed(w))
  }

  function BytesPart(b: seq<Byte>): Option<Raw> {
    if b == [] then None else Some(Blob(b))
  }

  ghost function BlockPart<Action, Auth, Ctx>(x: Wire<Action, Auth, Ctx>, v: Block<Action, Auth, Ctx>, n: nat): Option<Raw> {
    if n == PRNT then IdPart(v.parent)
    else if n == TMSTMP then WordPart(ToWord(v.timestamp))
    else if n == HGHT then WordPart(v.height)
    else if n == BLOCK_CONTEXT then BytesPart(EncodeEntry(x.contextBytes, v.context))
    else if n == TXS then
      if v.txs == [] then None else Some(Blobs(EncodeEach(TxBytes, v.txs)))
    else if n == STATE_ROOT then IdPart(v.stateRoot)
    else None
  }

  function ParseTx<Action, Auth>(p: Parser<Action, Auth>): seq<Byte> -> Option<Tx<Action, Auth>> {
    (b: seq<Byte>) => ParsedTx(p, b)
  }

  ghost function StoreBlock<Action, Auth, Ctx>(x: Wire<Action, Auth, Ctx>, c: Block<Action, Auth, Ctx>, f: Field)
    : Option<Block<Action, Auth, Ctx>>
  {
    match f.raw
    case Blob(b) =>
      if f.num == BLOCK_CONTEXT then
        if b == [] then None
        else
          match x.parseContext(b)
          case None => None
          case Some(ctx) => Some(c.(context := Some(ctx)))
      else if |b| != ID_LEN || b == EmptyId then None
      else if f.num == PRNT then Some(c.(parent := b))
      else if f.num == STATE_ROOT then Some(c.(stateRoot := b))
      else None
    case Fixed(w) =>
      if w == 0 then None
      else if f.num == TMSTMP then Some(c.(timestamp := FromWord(w)))
      else if f.num == HGHT then Some(c.(height := w))
      else None
    case Blobs(bs) =>
      if f.num != TXS || bs == [] then None
      else
        (match DecodeEach(ParseTx(x.parser), bs)
         case None => None
         case Some(txs) => Some(c.(txs := txs)))
    case Vint(_) => None
  }

  /** The blocks a reader can produce. */
  ghost predicate Canonical<Action, Auth, Ctx>(x: Wire<Action, Auth, Ctx>, v: Block<Action, Auth, Ctx>) {
    && Readable(x.contextBytes, x.parseContext, v.context)
    && forall tx <- v.txs :: Readable(TxBytes, ParseTx(x.parser), tx)
  }

  ghost function BlockCodec<Action, Auth, Ctx>(x: Wire<Action, Auth, Ctx>): Codec<Block<Action, Auth, Ctx>> {
    Codec(map[PRNT := KBytes, TMSTMP := KWord, HGHT := KWord, BLOCK_CONTEXT := KBytes, TXS := KRepeated, STATE_ROOT := KBytes],
          ZeroBlock(),
          (v: Block<Action, Auth, Ctx>, n: nat) => BlockPart(x, v, n),
          (c: Block<Action, Auth, Ctx>, f: Field) => StoreBlock(x, c, f),
          (v: Block<Action, Auth, Ctx>) => Canonical(x, v))
  }

  lemma TxsReadOnlyTheirPrint<Action(!new), Auth(!new)>(p: Parser<Action, Auth>)
    ensures ReadsOnlyItsPrint(TxBytes<Action, Auth>, ParseTx(p))
  {
  }

  lemma StoreBlockLaw<Action(!new), Auth(!new), Ctx(!new)>(x: Wire<Action, Auth, Ctx>, c: Block<Action, Auth, Ctx>, f: Field)
    requires FaithfulContext(x) && Canonical(x, c) && StoreBlock(x, c, f).Some?
    ensures Stored(BlockCodec(x), c, f, StoreBlock(x, c, f).value)
  {
    if f.num == TXS {
      StoreTxsLaw(x, c, f);
    } else {
      StoreOtherLaw(x, c, f);
    }
  }

  lemma StoreTxsLaw<Action(!new), Auth(!new), Ctx(!new)>(x: Wire<Action, Auth, Ctx>, c: Block<Action, Auth, Ctx>, f: Field)
    requires Canonical(x, c) && f.num == TXS && StoreBlock(x, c, f).Some?
    ensures Stored(BlockCodec(x), c, f, StoreBlock(x, c, f).value)
  {
    TxsReadOnlyTheirPrint(x.parser);
    EncodeDecodeEach(TxBytes, ParseTx(x.parser), f.raw.bs);
  }

  lemma StoreOtherLaw<Action(!new), Auth(!new), Ctx(!new)>(x: Wire<Action, Auth, Ctx>, c: Block<Action, Auth, Ctx>, f: Field)
    requires FaithfulContext(x) && Canonical(x, c) && f.num != TXS && StoreBlock(x, c, f).Some?
    ensures Stored(BlockCodec(x), c, f, StoreBlock(x, c, f).value)
  {
  }

  lemma BlockPartLaw<Action(!new), Auth(!new), Ctx(!new)>(
    x: Wire<Action, Auth, Ctx>, c: Block<Action, Auth, Ctx>, v: Block<Action, Auth, Ctx>, n: nat)
    requires Canonical(x, v) && BlockPart(x, v, n).Some?
    ensures StoreBlock(x, c, Field(n, BlockPart(x, v, n).value)).Some?
  {
    DecodeEncodeEach(TxBytes, ParseTx(x.parser), v.txs);
  }

  lemma BlockPartsDetermine<Action(!new), Auth(!new), Ctx(!new)>(
    x: Wire<Action, Auth, Ctx>, u: Block<Action, Auth, Ctx>, v: Block<Action, Auth, Ctx>)
    requires FaithfulContext(x) && Canonical(x, u) && Canonical(x, v) && SameParts(BlockCodec(x), u, v)
    ensures u == v
  {
    var k := BlockCodec(x);
    assert k.part(u, PRNT) == k.part(v, PRNT);
    assert k.part(u, TMSTMP) == k.part(v, TMSTMP);
    assert k.part(u, HGHT) == k.part(v, HGHT);
    assert k.part(u, BLOCK_CONTEXT) == k.part(v, BLOCK_CONTEXT);
    assert k.part(u, TXS) == k.part(v, TXS);
    assert k.part(u, STATE_ROOT) == k.part(v, STATE_ROOT);
    WordsDetermine(u.timestamp, v.timestamp);
    TxsDetermine(x.parser, u.txs, v.txs);
  }

  lemma TxsDetermine<Action(!new), Auth(!new)>(p: Parser<Action, Auth>, u: seq<Option<Tx<Action, Auth>>>, v: seq<Option<Tx<Action, Auth>>>)
    requires forall tx <- u :: Readable(TxBytes, ParseTx(p), tx)
    requires forall tx <- v :: Readable(TxBytes, ParseTx(p), tx)
    ensures EncodeEach(TxBytes, u) == EncodeEach(TxBytes, v) ==> u == v
  {
    DecodeEncodeEach(TxBytes, ParseTx(p), u);
    DecodeEncodeEach(TxBytes, ParseTx(p), v);
  }

  lemma WordsDetermine(s: Bytes.I64, t: Bytes.I64)
    ensures ToWord(s) == ToWord(t) ==> s == t
  {
  }

  lemma BlockLawful<Action(!new), Auth(!new), Ctx(!new)>(x: Wire<Action, Auth, Ctx>)
    requires FaithfulContext(x)
    ensures Lawful(BlockCodec(x))
  {
    var k := BlockCodec(x);
    forall c, f | k.canonical(c) && k.store(c, f).Some? ensures Stored(k, c, f, k.store(c, f).value) {
      StoreBlockLaw(x, c, f);
    }
    forall c, v, n: nat | k.canonical(v) && k.part(v, n).Some?
      ensures k.store(c, Field(n, k.part(v, n).value)).Some?
    {
      BlockPartLaw(x, c, v, n);
    }
    forall u, v | k.canonical(u) && k.canonical(v) && SameParts(k, u, v) ensures u == v {
      BlockPartsDetermine(x, u, v);
    }
  }

  /** A byte string is a block exactly when it is the encoding of one that reading can produce: one whose
      context and transactions are nil or read back from their own bytes. */
  lemma BlockDecodesItsEncoding<Action(!new), Auth(!new), Ctx(!new)>(
    x: Wire<Action, Auth, Ctx>, b: seq<Byte>, v: Block<Action, Auth, Ctx>)
    requires FaithfulContext(x)
    ensures Decode(BlockCodec(x), b) == Some(v) <==> Canonical(x, v) && Encode(BlockCodec(x), v) == b
  {
    BlockLawful(x);
    DecodeInvertsEncode(BlockCodec(x), b, v);
  }

  method DecodeTxEntry<Action, Auth>(p: Parser<Action, Auth>, entry: seq<Byte>) returns (res: Option<Option<Tx<Action, Auth>>>)
    ensures res == DecodeEntry(ParseTx(p), entry)
  {
    if entry == [] {
      return Some(None);
    }
    var tx := UnmarshalTx(p, entry);
    res := if tx.None? then None else Some(tx);
  }

  method DecodeTxs<Action, Auth>(p: Parser<Action, Auth>, entries: seq<seq<Byte>>) returns (res: Option<seq<Option<Tx<Action, Auth>>>>)
    ensures res == DecodeEach(ParseTx(p), entries)
  {
    ghost var dec := ParseTx(p);
    var txs := [];
    DecodeOntoEnds(dec, entries, txs);
    for i := 0 to |entries|
      invariant DecodeOnto(dec, entries[i..], txs) == DecodeEach(dec, entries)
    {
      DecodeOntoStep(dec, entries, i, txs);
      var tx := DecodeTxEntry(p, entries[i]);
      if tx.None? {
        return None;
      }
      txs := txs + [tx.value];
    }
    DecodeOntoEnds(dec, entries, txs);
    res := Some(txs);
  }

  method ReadScalarField<Action, Auth, Ctx>(
    x: Wire<Action, Auth, Ctx>, r: Reader, c: Block<Action, Auth, Ctx>, field: nat, wireType: nat)
    returns (res: Option<Block<Action, Auth, Ctx>>)
    requires field != BLOCK_CONTEXT && field != TXS
    modifies r
    ensures match ReadAndStore(BlockCodec(x), c, field, wireType, old(r.b))
            case None => res.None?
            case Some((c', rest)) => res == Some(c') && r.b == rest
  {
    if (field == PRNT || field == STATE_ROOT) && wireType == LEN {
      res := ReadIdField(x, r, c, field);
    } else if (field == TMSTMP || field == HGHT) && wireType == FIXED64 {
      res := ReadWordField(x, r, c, field);
    } else {
      return None;
    }
  }

  method ReadIdField<Action, Auth, Ctx>(x: Wire<Action, Auth, Ctx>, r: Reader, c: Block<Action, Auth, Ctx>, field: nat)
    returns (res: Option<Block<Action, Auth, Ctx>>)
    requires field == PRNT || field == STATE_ROOT
    modifies r
    ensures match ReadAndStore(BlockCodec(x), c, field, LEN, old(r.b))
            case None => res.None?
            case Some((c', rest)) => res == Some(c') && r.b == rest
  {
    var ok, id := r.ReadFixedBytes(ID_LEN);
    if !ok || id == EmptyId {
      return None;
    }
    res := Some(if field == PRNT then c.(parent := id) else c.(stateRoot := id));
  }

  method ReadWordField<Action, Auth, Ctx>(x: Wire<Action, Auth, Ctx>, r: Reader, c: Block<Action, Auth, Ctx>, field: nat)
    returns (res: Option<Block<Action, Auth, Ctx>>)
    requires field == TMSTMP || field == HGHT
    modifies r
    ensures match ReadAndStore(BlockCodec(x), c, field, FIXED64, old(r.b))
            case None => res.None?
            case Some((c', rest)) => res == Some(c') && r.b == rest
  {
    var ok, w := r.ReadFint64();
    if !ok || w == 0 {
      return None;
    }
    res := Some(if field == TMSTMP then c.(timestamp := FromWord(w)) else c.(height := w));
  }

  method ReadContextField<Action, Auth, Ctx>(x: Wire<Action, Auth, Ctx>, r: Reader, c: Block<Action, Auth, Ctx>)
    returns (res: Option<Block<Action, Auth, Ctx>>)
    modifies r
    ensures match ReadAndStore(BlockCodec(x), c, BLOCK_CONTEXT, LEN, old(r.b))
            case None => res.None?
            case Some((c', rest)) => res == Some(c') && r.b == rest
  {
    var ok, msgBytes := r.ReadBytes();
    if !ok || msgBytes == [] {
      return None;
    }
    var context := x.parseContext(msgBytes);
    res := if context.Some? then Some(c.(context := context)) else None;
  }

  method ReadTxsField<Action, Auth, Ctx>(x: Wire<Action, Auth, Ctx>, r: Reader, c: Block<Action, Auth, Ctx>)
    returns (res: Option<Block<Action, Auth, Ctx>>)
    modifies r
    ensures match ReadAndStore(BlockCodec(x), c, TXS, LEN, old(r.b))
            case None => res.None?
            case Some((c', rest)) => res == Some(c') && r.b == rest
  {
    hide BlockPart, Canonical, Encode, ParseTx;
    var ok, entries := r.ReadRepeated(8 * TXS + LEN);
    if !ok {
      return None;
    }
    var txs := DecodeTxs(x.parser, entries);
    res := if txs.Some? then Some(c.(txs := txs.value)) else None;
  }

  method ReadBlockField<Action, Auth, Ctx>(
    x: Wire<Action, Auth, Ctx>, r: Reader, c: Block<Action, Auth, Ctx>, field: nat, wireType: nat)
    returns (res: Option<Block<Action, Auth, Ctx>>)
    modifies r
    ensures match ReadAndStore(BlockCodec(x), c, field, wireType, old(r.b))
            case None => res.None?
            case Some((c', rest)) => res == Some(c') && r.b == rest
  {
    if field == BLOCK_CONTEXT && wireType == LEN {
      res := ReadContextField(x, r, c);
    } else if field == TXS && wireType == LEN {
      res := ReadTxsField(x, r, c);
    } else if field == BLOCK_CONTEXT || field == TXS {
      return None;
    } else {
      res := ReadScalarField(x, r, c, field, wireType);
    }
  }

  method UnmarshalRawBlock<Action, Auth, Ctx>(x: Wire<Action, Auth, Ctx>, bytes: seq<Byte>)
    returns (res: Option<Block<Action, Auth, Ctx>>)
    ensures res == Decode(BlockCodec(x), bytes)
  {
    ghost var k := BlockCodec(x);
    var r := new Reader(bytes);
    var c: Block<Action, Auth, Ctx>, minField := ZeroBlock(), 0;
    while r.b != []
      invariant Continue(k, c, r.b, minField) == Decode(k, bytes)
      decreases |r.b|
    {
      ghost var b0 := r.b;
      var ok, field, wireType := r.ReadTag();
      if !ok || field < minField {
        ContinueRefused(k, c, b0, minField);
        return None;
      }
      ContinueStep(k, c, b0, minField, field, wireType, r.b);
      var c' := ReadBlockField(x, r, c, field, wireType);
      if c'.None? {
        return None;
      }
      c, minField := c'.value, field + 1;
    }
    ContinueEnd(k, c, minField);
    res := Some(c);
  }

  lemma WrittenBlock<Action(!new), Auth(!new), Ctx(!new)>(x: Wire<Action, Auth, Ctx>, c: Block<Action, Auth, Ctx>, before: seq<Byte>)
    requires FaithfulContext(x)
    ensures var k := BlockCodec(x);
            before + EncodePart(k, c, PRNT) + EncodePart(k, c, TMSTMP) + EncodePart(k, c, HGHT)
            + EncodePart(k, c, BLOCK_CONTEXT) + EncodePart(k, c, TXS) + EncodePart(k, c, STATE_ROOT)
            == before + Encode(k, c)
  {
    BlockLawful(x);
    Encode6(BlockCodec(x), c, before);
  }

  function IdField(num: nat, id: Id): seq<Byte> {
    if id == EmptyId then [] else EncodeField(Field(num, Blob(id)))
  }

  function WordField(num: nat, w: U64): seq<Byte> {
    if w == 0 then [] else EncodeField(Field(num, Fixed(w)))
  }

  function ContextField(b: seq<Byte>): seq<Byte> {
    if b == [] then [] else EncodeField(Field(BLOCK_CONTEXT, Blob(b)))
  }

  lemma ScalarParts<Action, Auth, Ctx>(x: Wire<Action, Auth, Ctx>, c: Block<Action, Auth, Ctx>)
    ensures var k := BlockCodec(x);
            && EncodePart(k, c, PRNT) == IdField(PRNT, c.parent)
            && EncodePart(k, c, TMSTMP) == WordField(TMSTMP, ToWord(c.timestamp))
            && EncodePart(k, c, HGHT) == WordField(HGHT, c.height)
            && EncodePart(k, c, STATE_ROOT) == IdField(STATE_ROOT, c.stateRoot)
  {
  }

  lemma NestedParts<Action, Auth, Ctx>(x: Wire<Action, Auth, Ctx>, c: Block<Action, Auth, Ctx>)
    ensures var k := BlockCodec(x);
            && EncodePart(k, c, BLOCK_CONTEXT) == ContextField(EncodeEntry(x.contextBytes, c.context))
            && EncodePart(k, c, TXS) == EncodeField(Field(TXS, Blobs(EncodeEach(TxBytes, c.txs))))
  {
  }

  method IdSize(num: nat, id: Id) returns (size: nat)
    requires num < LIMIT
    ensures size == |IdField(num, id)|
  {
    size := 0;
    if id != EmptyId {
      BlobField(num, id);
      size := |TagByte(num, LEN)| + SizeBytes(id);
    }
  }

  method WordSize(num: nat, w: U64) returns (size: nat)
    requires num < LIMIT
    ensures size == |WordField(num, w)|
  {
    size := 0;
    if w != 0 {
      FixedField(num, w);
      size := |TagByte(num, FIXED64)| + WORD_LEN;
    }
  }

  method TxEntriesSize<Action, Auth>(xs: seq<Option<Tx<Action, Auth>>>) returns (size: nat)
    ensures size == |EncodeField(Field(TXS, Blobs(EncodeEach(TxBytes, xs))))|
  {
    ghost var enc := TxBytes<Action, Auth>;
    size := 0;
    for i := 0 to |xs|
      invariant size == |EntriesTo(TXS, enc, xs, i)|
    {
      var fieldSize := if xs[i].None? then 0 else |xs[i].value.bytes|;
      EntriesToStep(TXS, enc, xs, i);
      BlobField(TXS, EncodeEntry(enc, xs[i]));
      size := size + |TagByte(TXS, LEN)| + SizeUint(fieldSize) + fieldSize;
    }
    EntriesToAll(TXS, enc, xs);
  }

  method BlockSize<Action(!new), Auth(!new), Ctx(!new)>(x: Wire<Action, Auth, Ctx>, c: Block<Action, Auth, Ctx>)
    returns (size: nat)
    requires FaithfulContext(x)
    ensures size == |Encode(BlockCodec(x), c)|
  {
    ScalarParts(x, c);
    NestedParts(x, c);
    var s1 := IdSize(PRNT, c.parent);
    var s2 := WordSize(TMSTMP, ToWord(c.timestamp));
    var s3 := WordSize(HGHT, c.height);
    size := s1 + s2 + s3;
    if c.context.Some? {
      var fieldSize := |x.contextBytes(c.context.value)|;
      if fieldSize != 0 {
        BlobField(BLOCK_CONTEXT, x.contextBytes(c.context.value));
        size := size + |TagByte(BLOCK_CONTEXT, LEN)| + SizeUint(fieldSize) + fieldSize;
      }
    }
    var s5 := TxEntriesSize(c.txs);
    var s6 := IdSize(STATE_ROOT, c.stateRoot);
    size := size + s5 + s6;
    WrittenBlock(x, c, []);
  }

  /** A block on the wire: its parent, its time and its height as eight bytes each, its context, an entry for
      each transaction, and the state root. */
  function BlockBytes<Action, Auth, Ctx>(x: Wire<Action, Auth, Ctx>, b: Block<Action, Auth, Ctx>): seq<Byte> {
    WireBytes.IdField(0x0a, b.parent)
    + WireBytes.WordField(0x11, ToWord(b.timestamp))
    + WireBytes.WordField(0x19, b.height)
    + WireBytes.CountedField(0x22, match b.context case None => [] case Some(ctx) => x.contextBytes(ctx))
    + WireBytes.Entries(0x2a, WireBytes.EntryEach(TxBytes, b.txs))
    + WireBytes.IdField(0x32, b.stateRoot)
  }

  lemma ScalarBytes<Action, Auth, Ctx>(x: Wire<Action, Auth, Ctx>, b: Block<Action, Auth, Ctx>)
    ensures var k := BlockCodec(x);
            && EncodePart(k, b, 1) == WireBytes.IdField(0x0a, b.parent)
            && EncodePart(k, b, 2) == WireBytes.WordField(0x11, ToWord(b.timestamp))
            && EncodePart(k, b, 3) == WireBytes.WordField(0x19, b.height)
            && EncodePart(k, b, 6) == WireBytes.IdField(0x32, b.stateRoot)
  {
    ScalarParts(x, b);
    hide EncodePart, EncodeField, WireBytes.EightBytes, WireBytes.IdField;
    WireBytes.FieldBytes(1);
    WireBytes.FieldBytes(2);
    WireBytes.FieldBytes(3);
    WireBytes.FieldBytes(6);
    WireBytes.IdFieldBytes(0x0a, b.parent);
    WireBytes.IdFieldBytes(0x32, b.stateRoot);
  }

  lemma NestedBytes<Action, Auth, Ctx>(x: Wire<Action, Auth, Ctx>, b: Block<Action, Auth, Ctx>)
    ensures var k := BlockCodec(x);
            && EncodePart(k, b, 4)
               == WireBytes.CountedField(0x22, match b.context case None => [] case Some(ctx) => x.contextBytes(ctx))
            && EncodePart(k, b, 5) == WireBytes.Entries(0x2a, WireBytes.EntryEach(TxBytes, b.txs))
  {
    NestedParts(x, b);
    hide EncodePart, EncodeField, EncodeEach, WireBytes.Entries, WireBytes.EntryEach;
    WireBytes.FieldBytes(4);
    WireBytes.FieldBytes(5);
    WireBytes.EntryEachBytes(TxBytes, b.txs);
  }

  lemma BlockLayout<Action(!new), Auth(!new), Ctx(!new)>(x: Wire<Action, Auth, Ctx>, b: Block<Action, Auth, Ctx>)
    requires FaithfulContext(x)
    ensures Encode(BlockCodec(x), b) == BlockBytes(x, b)
  {
    ScalarBytes(x, b);
    NestedBytes(x, b);
    hide Encode, EncodePart, WireBytes.IdField, WireBytes.WordField, WireBytes.CountedField;
    hide WireBytes.Entries, WireBytes.EntryEach;
    var k := BlockCodec(x);
    WrittenBlock(x, b, []);
    assert [] + EncodePart(k, b, 1) == EncodePart(k, b, 1) && [] + Encode(k, b) == Encode(k, b);
  }

  /** A byte string is read as a block exactly when it looks like that, and its context and transactions are
      nil or read back from their own bytes. */
  lemma BlockReads<Action(!new), Auth(!new), Ctx(!new)>(
    x: Wire<Action, Auth, Ctx>, bytes: seq<Byte>, v: Block<Action, Auth, Ctx>)
    requires FaithfulContext(x)
    ensures Decode(BlockCodec(x), bytes) == Some(v) <==> Canonical(x, v) && bytes == BlockBytes(x, v)
  {
    BlockLayout(x, v);
    BlockDecodesItsEncoding(x, bytes, v);
  }

  method MarshalId(w: Writer, num: nat, id: Id)
    requires num < LIMIT
    modifies w
    ensures w.b == old(w.b) + IdField(num, id)
  {
    if id != EmptyId {
      w.AppendBytes(num, id);
    }
  }

  method MarshalWord(w: Writer, num: nat, v: U64)
    requires num < LIMIT
    modifies w
    ensures w.b == old(w.b) + WordField(num, v)
  {
    if v != 0 {
      w.AppendFint64(num, v);
    }
  }

  method MarshalTxEntries<Action, Auth>(w: Writer, xs: seq<Option<Tx<Action, Auth>>>)
    modifies w
    ensures w.b == old(w.b) + EncodeField(Field(TXS, Blobs(EncodeEach(TxBytes, xs))))
  {
    ghost var enc, w0 := TxBytes<Action, Auth>, w.b;
    for i := 0 to |xs|
      invariant w.b == w0 + EntriesTo(TXS, enc, xs, i)
    {
      EntriesToStep(TXS, enc, xs, i);
      ConcatAssociates(w0, EntriesTo(TXS, enc, xs, i), EncodeField(Field(TXS, Blob(EncodeEntry(enc, xs[i])))));
      w.AppendBytes(TXS, if xs[i].None? then [] else xs[i].value.bytes);
    }
    EntriesToAll(TXS, enc, xs);
  }

  method MarshalBlockInto<Action(!new), Auth(!new), Ctx(!new)>(
    w: Writer, x: Wire<Action, Auth, Ctx>, c: Block<Action, Auth, Ctx>)
    requires FaithfulContext(x)
    modifies w
    ensures w.b == old(w.b) + Encode(BlockCodec(x), c)
    ensures w.b == old(w.b) + BlockBytes(x, c)
  {
    BlockLayout(x, c);
    hide BlockBytes;
    ScalarParts(x, c);
    NestedParts(x, c);
    MarshalId(w, PRNT, c.parent);
    MarshalWord(w, TMSTMP, ToWord(c.timestamp));
    MarshalWord(w, HGHT, c.height);
    ghost var w3 := w.b;
    if c.context.Some? && |x.contextBytes(c.context.value)| != 0 {
      w.AppendBytes(BLOCK_CONTEXT, x.contextBytes(c.context.value));
    }
    assert w.b == w3 + ContextField(EncodeEntry(x.contextBytes, c.context));
    MarshalTxEntries(w, c.txs);
    MarshalId(w, STATE_ROOT, c.stateRoot);
    WrittenBlock(x, c, old(w.b));
  }

  // ---- StatelessBlock ---------------------------------------------------------------------

  /** A block with its cached bytes and id. */
  datatype StatelessBlock<Action, Auth, Ctx> = StatelessBlock(block: Block<Action, Auth, Ctx>, bytes: seq<Byte>, id: Id)

  function AllPresent<T>(xs: seq<Option<T>>): bool {
    forall i :: 0 <= i < |xs| ==> xs[i].Some?
  }

  /** What block parsing promises: the canonical decoding, refused if any transaction is nil. */
  ghost function ParsedBlock<Action, Auth, Ctx>(x: Wire<Action, Auth, Ctx>, raw: seq<Byte>)
    : Option<StatelessBlock<Action, Auth, Ctx>>
  {
    match Decode(BlockCodec(x), raw)
    case None => None
    case Some(b) => if AllPresent(b.txs) then Some(StatelessBlock(b, raw, x.parser.toId(raw))) else None
  }

  method UnmarshalBlock<Action, Auth, Ctx>(x: Wire<Action, Auth, Ctx>, raw: seq<Byte>)
    returns (res: Option<StatelessBlock<Action, Auth, Ctx>>)
    ensures res == ParsedBlock(x, raw)
  {
    hide Decode, BlockCodec;
    var b := UnmarshalRawBlock(x, raw);
    if b.None? {
      return None;
    }
    for i := 0 to |b.value.txs|
      invariant forall j :: 0 <= j < i ==> b.value.txs[j].Some?
    {
      if b.value.txs[i].None? {
        return None;
      }
    }
    res := Some(StatelessBlock(b.value, raw, x.parser.toId(raw)));
  }

  method MarshalBlock<Action(!new), Auth(!new), Ctx(!new)>(x: Wire<Action, Auth, Ctx>, b: Block<Action, Auth, Ctx>)
    returns (bytes: seq<Byte>)
    requires FaithfulContext(x)
    ensures bytes == BlockBytes(x, b)
  {
    var w := new Writer();
    MarshalBlockInto(w, x, b);
    bytes := w.b;
  }

  method NewStatelessBlock<Action(!new), Auth(!new), Ctx(!new)>(x: Wire<Action, Auth, Ctx>, b: Block<Action, Auth, Ctx>)
    returns (res: StatelessBlock<Action, Auth, Ctx>)
    requires FaithfulContext(x)
    ensures res == StatelessBlock(b, BlockBytes(x, b), x.parser.toId(BlockBytes(x, b)))
  {
    var bytes := MarshalBlock(x, b);
    res := StatelessBlock(b, bytes, x.parser.toId(bytes));
  }

  /** A parsed block is the decoding of the only bytes that encode it; it holds no nil
      transaction, and each of its transactions is itself the parse of its own bytes. */
  lemma ParsedBlockIsCanonical<Action(!new), Auth(!new), Ctx(!new)>(x: Wire<Action, Auth, Ctx>, raw: seq<Byte>)
    requires FaithfulContext(x) && ParsedBlock(x, raw).Some?
    ensures var sb := ParsedBlock(x, raw).value;
            && sb.bytes == raw == Encode(BlockCodec(x), sb.block) == BlockBytes(x, sb.block)
            && sb.id == x.parser.toId(raw)
            && forall i :: 0 <= i < |sb.block.txs| ==>
                 && sb.block.txs[i].Some?
                 && ParsedTx(x.parser, sb.block.txs[i].value.bytes) == Some(sb.block.txs[i].value)
  {
    BlockLawful(x);
    EncodeDecode(BlockCodec(x), raw);
    BlockLayout(x, ParsedBlock(x, raw).value.block);
    hide BlockBytes;
    var b := ParsedBlock(x, raw).value.block;
    forall i | 0 <= i < |b.txs|
      ensures ParsedTx(x.parser, b.txs[i].value.bytes) == Some(b.txs[i].value)
    {
      assert Readable(TxBytes, ParseTx(x.parser), b.txs[i]);
    }
  }

  /** Bytes are accepted as a block exactly when they are those of a block that reading can produce and that
      holds no nil transaction. */
  lemma ParsedBlockAnswers<Action(!new), Auth(!new), Ctx(!new)>(x: Wire<Action, Auth, Ctx>, raw: seq<Byte>)
    requires FaithfulContext(x)
    ensures ParsedBlock(x, raw).Some?
            <==> exists b :: Canonical(x, b) && raw == BlockBytes(x, b) && (forall i :: 0 <= i < |b.txs| ==> b.txs[i].Some?)
    ensures ParsedBlock(x, raw).Some? ==> ParsedBlock(x, raw).value.bytes == raw && ParsedBlock(x, raw).value.id == x.parser.toId(raw)
  {
    hide Canonical, BlockBytes, Decode;
    forall b ensures Decode(BlockCodec(x), raw) == Some(b) <==> Canonical(x, b) && raw == BlockBytes(x, b) {
      BlockReads(x, raw, b);
    }
  }

  // The nil identification.

  function NilIfEmpty<E>(enc: E -> seq<Byte>, x: Option<E>): Option<E> {
    if x.Some? && enc(x.value) == [] then None else x
  }

  function NilIfEmptyEach<E>(enc: E -> seq<Byte>, xs: seq<Option<E>>): (ys: seq<Option<E>>)
    ensures |ys| == |xs|
    ensures forall i :: 0 <= i < |xs| ==> ys[i] == NilIfEmpty(enc, xs[i])
  {
    if xs == [] then [] else [NilIfEmpty(enc, xs[0])] + NilIfEmptyEach(enc, xs[1..])
  }

  lemma {:induction false} NilAndEmptyEncodeAlike<E>(enc: E -> seq<Byte>, xs: seq<Option<E>>)
    ensures EncodeEach(enc, NilIfEmptyEach(enc, xs)) == EncodeEach(enc, xs)
  {
    if xs != [] {
      NilAndEmptyEncodeAlike(enc, xs[1..]);
      assert NilIfEmptyEach(enc, xs)[1..] == NilIfEmptyEach(enc, xs[1..]);
    }
  }

  function Normal<Action, Auth, Ctx>(x: Wire<Action, Auth, Ctx>, v: Block<Action, Auth, Ctx>): Block<Action, Auth, Ctx> {
    v.(context := NilIfEmpty(x.contextBytes, v.context), txs := NilIfEmptyEach(TxBytes, v.txs))
  }

  /** Every block whose transactions parse back survives the wire, up to an all-zero context or
      an empty transaction coming back as nil. */
  lemma BlockRoundTrip<Action(!new), Auth(!new), Ctx(!new)>(x: Wire<Action, Auth, Ctx>, v: Block<Action, Auth, Ctx>)
    requires FaithfulContext(x)
    requires forall tx <- v.txs :: tx.Some? && tx.value.bytes != [] ==> ParsedTx(x.parser, tx.value.bytes) == tx
    ensures Decode(BlockCodec(x), Encode(BlockCodec(x), v)) == Some(Normal(x, v))
  {
    var k, u := BlockCodec(x), Normal(x, v);
    BlockLawful(x);
    NilAndEmptyEncodeAlike(TxBytes, v.txs);
    forall tx | tx in u.txs ensures Readable(TxBytes, ParseTx(x.parser), tx) {
      var i :| 0 <= i < |u.txs| && u.txs[i] == tx;
      assert v.txs[i] in v.txs;
    }
    assert Canonical(x, u);
    forall n: nat ensures k.part(u, n) == k.part(v, n) {
    }
    SamePartsEncodeAlike(k, u, v);
    DecodeEncode(k, u);
  }
}
