/** The transaction messages: Base nested in SerializeTx, and the transaction that recovers the
    signed message by cutting the auth suffix off its raw bytes. */
module TxMessages {
  import opened Bytes
  import opened Canoto
  import WireBytes

  // ---- Base -------------------------------------------------------------------------------

  datatype Base = Base(timestamp: Bytes.I64, chainId: Id, maxFee: U64)

  const BASE_TIMESTAMP := 1
  const BASE_CHAIN_ID := 2
  const BASE_MAX_FEE := 3

  const ZeroBase := Base(0, EmptyId, 0)

  function BasePart(v: Base, n: nat): Option<Raw> {
    if n == BASE_TIMESTAMP then
      if v.timestamp == 0 then None else Some(Vint(ZigZag(v.timestamp)))
    else if n == BASE_CHAIN_ID then
      if v.chainId == EmptyId then None else Some(Blob(v.chainId))
    else if n == BASE_MAX_FEE then
      if v.maxFee == 0 then None else Some(Fixed(v.maxFee))
    else None
  }

  function StoreBase(c: Base, f: Field): Option<Base> {
    match f.raw
    case Vint(w) =>
      if f.num == BASE_TIMESTAMP && w != 0 then Some(c.(timestamp := UnZigZag(w))) else None
    case Blob(b) =>
      if f.num == BASE_CHAIN_ID && |b| == ID_LEN && b != EmptyId then Some(c.(chainId := b)) else None
    case Fixed(w) =>
      if f.num == BASE_MAX_FEE && w != 0 then Some(c.(maxFee := w)) else None
    case Blobs(_) => None
  }

  function AnyBase(c: Base): bool { true }

  function BaseCodec(): Codec<Base> {
    Codec(map[BASE_TIMESTAMP := KVarint, BASE_CHAIN_ID := KBytes, BASE_MAX_FEE := KWord],
          ZeroBase, BasePart, StoreBase, AnyBase)
  }

  lemma BaseLawful()
    ensures Lawful(BaseCodec())
  {
    var k := BaseCodec();
    forall c, f | k.store(c, f).Some? ensures Stored(k, c, f, k.store(c, f).value) {
    }
    forall u, v | SameParts(k, u, v) ensures u == v {
      assert k.part(u, BASE_TIMESTAMP) == k.part(v, BASE_TIMESTAMP);
      assert k.part(u, BASE_CHAIN_ID) == k.part(v, BASE_CHAIN_ID);
      assert k.part(u, BASE_MAX_FEE) == k.part(v, BASE_MAX_FEE);
    }
  }

  /** A base on the wire: its timestamp as a zigzag varint, its chain ID, and its fee as eight bytes, each
      behind its tag and absent when zero. */
  function BaseBytes(v: Base): seq<Byte> {
    (if v.timestamp == 0 then [] else [0x08] + Varint(ZigZag(v.timestamp)))
    + WireBytes.IdField(0x12, v.chainId)
    + WireBytes.WordField(0x19, v.maxFee)
  }

  lemma BaseLayout(v: Base)
    ensures Encode(BaseCodec(), v) == BaseBytes(v)
  {
    BaseParts(v);
    hide Encode, EncodePart;
    var k := BaseCodec();
    WrittenBase(v, []);
    assert [] + EncodePart(k, v, 1) == EncodePart(k, v, 1) && [] + Encode(k, v) == Encode(k, v);
  }

  lemma BaseParts(v: Base)
    ensures var k := BaseCodec();
            && EncodePart(k, v, 1) == (if v.timestamp == 0 then [] else [0x08] + Varint(ZigZag(v.timestamp)))
            && EncodePart(k, v, 2) == WireBytes.IdField(0x12, v.chainId)
            && EncodePart(k, v, 3) == WireBytes.WordField(0x19, v.maxFee)
  {
    hide EncodeField, WireBytes.EightBytes, Varint;
    WireBytes.FieldBytes(1);
    WireBytes.FieldBytes(2);
    WireBytes.FieldBytes(3);
    WireBytes.IdFieldBytes(0x12, v.chainId);
  }

  /** A byte string is read as a base exactly when it looks like that. */
  lemma BaseReads(bytes: seq<Byte>)
    ensures forall v :: Decode(BaseCodec(), bytes) == Some(v) <==> bytes == BaseBytes(v)
  {
    forall v ensures Decode(BaseCodec(), bytes) == Some(v) <==> bytes == BaseBytes(v) {
      BaseLayout(v);
      BaseDecodesItsEncoding(bytes, v);
    }
  }

  method ReadBaseField(r: Reader, c: Base, field: nat, wireType: nat) returns (res: Option<Base>)
    modifies r
    ensures match ReadAndStore(BaseCodec(), c, field, wireType, old(r.b))
            case None => res.None?
            case Some((c', rest)) => res == Some(c') && r.b == rest
  {
    if field == BASE_TIMESTAMP && wireType == VARINT {
      var ok, w := r.ReadUint();
      return if ok && w != 0 then Some(c.(timestamp := UnZigZag(w))) else None;
    } else if field == BASE_CHAIN_ID && wireType == LEN {
      var ok, id := r.ReadFixedBytes(ID_LEN);
      return if ok && id != EmptyId then Some(c.(chainId := id)) else None;
    } else if field == BASE_MAX_FEE && wireType == FIXED64 {
      var ok, w := r.ReadFint64();
      return if ok && w != 0 then Some(c.(maxFee := w)) else None;
    } else {
      return None;
    }
  }

  method UnmarshalBase(bytes: seq<Byte>) returns (res: Option<Base>)
    ensures res == Decode(BaseCodec(), bytes)
    ensures forall v :: res == Some(v) <==> bytes == BaseBytes(v)
  {
    BaseReads(bytes);
    ghost var k := BaseCodec();
    var r := new Reader(bytes);
    var c, minField := ZeroBase, 0;
    while r.b != []
      invariant Continue(k, c, r.b, minField) == Decode(k, bytes)
      decreases |r.b|
    {
      ghost var b0 := r.b;
      var ok, field, wireType := r.ReadTag();
      if !ok || field < minField {
        ContinueRefused(k, c, b0, minField);
        return None;
      }
      ContinueStep(k, c, b0, minField, field, wireType, r.b);
      var c' := ReadBaseField(r, c, field, wireType);
      if c'.None? {
        return None;
      }
      c, minField := c'.value, field + 1;
    }
    ContinueEnd(k, c, minField);
    res := Some(c);
  }

  lemma WrittenBase(c: Base, before: seq<Byte>)
    ensures var k := BaseCodec();
            before + EncodePart(k, c, BASE_TIMESTAMP) + EncodePart(k, c, BASE_CHAIN_ID) + EncodePart(k, c, BASE_MAX_FEE)
            == before + Encode(k, c)
  {
    BaseLawful();
    Encode3(BaseCodec(), c, before);
  }

  method BaseSize(c: Base) returns (size: nat)
    ensures size == |Encode(BaseCodec(), c)|
  {
    ghost var k := BaseCodec();
    size := 0;
    if c.timestamp != 0 {
      VintField(BASE_TIMESTAMP, ZigZag(c.timestamp));
      size := size + |TagByte(BASE_TIMESTAMP, VARINT)| + SizeUint(ZigZag(c.timestamp));
    }
    assert size == |EncodePart(k, c, BASE_TIMESTAMP)|;
    if c.chainId != EmptyId {
      BlobField(BASE_CHAIN_ID, c.chainId);
      size := size + |TagByte(BASE_CHAIN_ID, LEN)| + SizeBytes(c.chainId);
    }
    assert size == |EncodePart(k, c, BASE_TIMESTAMP)| + |EncodePart(k, c, BASE_CHAIN_ID)|;
    if c.maxFee != 0 {
      FixedField(BASE_MAX_FEE, c.maxFee);
      size := size + |TagByte(BASE_MAX_FEE, FIXED64)| + WORD_LEN;
    }
    WrittenBase(c, []);
  }

  method MarshalBaseInto(w: Writer, c: Base)
    modifies w
    ensures w.b == old(w.b) + Encode(BaseCodec(), c)
    ensures w.b == old(w.b) + BaseBytes(c)
  {
    BaseLayout(c);
    ghost var k, w0 := BaseCodec(), w.b;
    ghost var p1, p2, p3 := EncodePart(k, c, BASE_TIMESTAMP), EncodePart(k, c, BASE_CHAIN_ID), EncodePart(k, c, BASE_MAX_FEE);
    if c.timestamp != 0 {
      w.AppendUint(BASE_TIMESTAMP, ZigZag(c.timestamp));
    }
    assert w.b == w0 + p1;
    if c.chainId != EmptyId {
      w.AppendBytes(BASE_CHAIN_ID, c.chainId);
    }
    assert w.b == w0 + p1 + p2;
    if c.maxFee != 0 {
      w.AppendFint64(BASE_MAX_FEE, c.maxFee);
    }
    assert w.b == w0 + p1 + p2 + p3;
    WrittenBase(c, w0);
  }

  // ---- SerializeTx ------------------------------------------------------------------------

  datatype SerializeTx = SerializeTx(base: Base, actions: seq<seq<Byte>>, auth: seq<Byte>)

  const TX_BASE := 1
  const TX_ACTIONS := 2
  const TX_AUTH := 3

  const ZeroTx := SerializeTx(ZeroBase, [], [])

  function NonEmpty(b: seq<Byte>): Option<Raw> {
    if b == [] then None else Some(Blob(b))
  }

  function TxPart(v: SerializeTx, n: nat): Option<Raw> {
    if n == TX_BASE then NonEmpty(Encode(BaseCodec(), v.base))
    else if n == TX_ACTIONS then
      if v.actions == [] then None else Some(Blobs(v.actions))
    else if n == TX_AUTH then NonEmpty(v.auth)
    else None
  }

  function StoreTx(c: SerializeTx, f: Field): Option<SerializeTx> {
    match f.raw
    case Blob(b) =>
      if b == [] then None
      else if f.num == TX_BASE then
        match Decode(BaseCodec(), b)
        case None => None
        case Some(base) => Some(c.(base := base))
      else if f.num == TX_AUTH then Some(c.(auth := b))
      else None
    case Blobs(bs) =>
      if f.num == TX_ACTIONS && bs != [] then Some(c.(actions := bs)) else None
    case _ => None
  }

  function AnyTx(c: SerializeTx): bool { true }

  function SerializeTxCodec(): Codec<SerializeTx> {
    Codec(map[TX_BASE := KBytes, TX_ACTIONS := KRepeated, TX_AUTH := KBytes], ZeroTx, TxPart, StoreTx, AnyTx)
  }

  lemma StoreTxLaw(c: SerializeTx, f: Field)
    requires StoreTx(c, f).Some?
    ensures Stored(SerializeTxCodec(), c, f, StoreTx(c, f).value)
  {
    BaseLawful();
    if f.num == TX_BASE {
      EncodeDecode(BaseCodec(), f.raw.b);
    }
  }

  lemma TxPartLaw(c: SerializeTx, v: SerializeTx, n: nat)
    requires TxPart(v, n).Some?
    ensures StoreTx(c, Field(n, TxPart(v, n).value)).Some?
  {
    BaseLawful();
    DecodeEncode(BaseCodec(), v.base);
  }

  lemma TxPartsDetermine(u: SerializeTx, v: SerializeTx)
    requires SameParts(SerializeTxCodec(), u, v)
    ensures u == v
  {
    var k := SerializeTxCodec();
    assert k.part(u, TX_BASE) == k.part(v, TX_BASE);
    assert k.part(u, TX_ACTIONS) == k.part(v, TX_ACTIONS);
    assert k.part(u, TX_AUTH) == k.part(v, TX_AUTH);
    BaseLawful();
    EncodeInjective(BaseCodec(), u.base, v.base);
  }

  lemma TxLawful()
    ensures Lawful(SerializeTxCodec())
  {
    var k := SerializeTxCodec();
    BaseLawful();
    ZeroEncodesEmpty(BaseCodec());
    forall c, f | k.store(c, f).Some? ensures Stored(k, c, f, k.store(c, f).value) {
      StoreTxLaw(c, f);
    }
    forall c, v, n: nat | k.part(v, n).Some? ensures k.store(c, Field(n, k.part(v, n).value)).Some? {
      TxPartLaw(c, v, n);
    }
    forall u, v | SameParts(k, u, v) ensures u == v {
      TxPartsDetermine(u, v);
    }
  }

  /** A byte string is a transaction exactly when it is the encoding of one, the nested base and empty
      action entries included; and the same for the base alone. */
  lemma TxDecodesItsEncoding(b: seq<Byte>, v: SerializeTx)
    ensures Decode(SerializeTxCodec(), b) == Some(v) <==> Encode(SerializeTxCodec(), v) == b
  {
    TxLawful();
    DecodeInvertsEncode(SerializeTxCodec(), b, v);
  }

  lemma BaseDecodesItsEncoding(b: seq<Byte>, v: Base)
    ensures Decode(BaseCodec(), b) == Some(v) <==> Encode(BaseCodec(), v) == b
  {
    BaseLawful();
    DecodeInvertsEncode(BaseCodec(), b, v);
  }

  /** A transaction on the wire: the counted bytes of its base, an entry for each action, and its auth. */
  function SerializeTxBytes(v: SerializeTx): seq<Byte> {
    WireBytes.CountedField(0x0a, BaseBytes(v.base))
    + WireBytes.Entries(0x12, v.actions)
    + WireBytes.CountedField(0x1a, v.auth)
  }

  lemma SerializeTxLayout(v: SerializeTx)
    ensures Encode(SerializeTxCodec(), v) == SerializeTxBytes(v)
  {
    TxParts(v);
    hide Encode, EncodePart, BaseBytes, WireBytes.CountedField, WireBytes.Entries;
    var k := SerializeTxCodec();
    WrittenTx(v, []);
    assert [] + EncodePart(k, v, 1) == EncodePart(k, v, 1) && [] + Encode(k, v) == Encode(k, v);
  }

  lemma TxParts(v: SerializeTx)
    ensures var k := SerializeTxCodec();
            && EncodePart(k, v, 1) == WireBytes.CountedField(0x0a, BaseBytes(v.base))
            && EncodePart(k, v, 2) == WireBytes.Entries(0x12, v.actions)
            && EncodePart(k, v, 3) == WireBytes.CountedField(0x1a, v.auth)
  {
    hide EncodeField, Encode, BaseBytes;
    BaseLayout(v.base);
    WireBytes.FieldBytes(1);
    WireBytes.FieldBytes(2);
    WireBytes.FieldBytes(3);
  }

  lemma SerializeTxReads(bytes: seq<Byte>)
    ensures forall v :: Decode(SerializeTxCodec(), bytes) == Some(v) <==> bytes == SerializeTxBytes(v)
  {
    forall v ensures Decode(SerializeTxCodec(), bytes) == Some(v) <==> bytes == SerializeTxBytes(v) {
      SerializeTxLayout(v);
      TxDecodesItsEncoding(bytes, v);
    }
  }

  method ReadTxField(r: Reader, c: SerializeTx, field: nat, wireType: nat) returns (res: Option<SerializeTx>)
    modifies r
    ensures match ReadAndStore(SerializeTxCodec(), c, field, wireType, old(r.b))
            case None => res.None?
            case Some((c', rest)) => res == Some(c') && r.b == rest
  {
    if field == TX_BASE && wireType == LEN {
      var ok, msgBytes := r.ReadBytes();
      if !ok || msgBytes == [] {
        return None;
      }
      var base := UnmarshalBase(msgBytes);
      return if base.Some? then Some(c.(base := base.value)) else None;
    } else if field == TX_ACTIONS && wireType == LEN {
      var ok, actions := r.ReadRepeated(8 * TX_ACTIONS + LEN);
      return if ok then Some(c.(actions := actions)) else None;
    } else if field == TX_AUTH && wireType == LEN {
      var ok, auth := r.ReadBytes();
      return if ok && auth != [] then Some(c.(auth := auth)) else None;
    } else {
      return None;
    }
  }

  method UnmarshalSerializeTx(bytes: seq<Byte>) returns (res: Option<SerializeTx>)
    ensures res == Decode(SerializeTxCodec(), bytes)
    ensures forall v :: res == Some(v) <==> bytes == SerializeTxBytes(v)
  {
    SerializeTxReads(bytes);
    ghost var k := SerializeTxCodec();
    var r := new Reader(bytes);
    var c, minField := ZeroTx, 0;
    while r.b != []
      invariant Continue(k, c, r.b, minField) == Decode(k, bytes)
      decreases |r.b|
    {
      ghost var b0 := r.b;
      var ok, field, wireType := r.ReadTag();
      if !ok || field < minField {
        ContinueRefused(k, c, b0, minField);
        return None;
      }
      ContinueStep(k, c, b0, minField, field, wireType, r.b);
      var c' := ReadTxField(r, c, field, wireType);
      if c'.None? {
        return None;
      }
      c, minField := c'.value, field + 1;
    }
    ContinueEnd(k, c, minField);
    res := Some(c);
  }

  lemma WrittenTx(c: SerializeTx, before: seq<Byte>)
    ensures var k := SerializeTxCodec();
            before + EncodePart(k, c, TX_BASE) + EncodePart(k, c, TX_ACTIONS) + EncodePart(k, c, TX_AUTH)
            == before + Encode(k, c)
  {
    TxLawful();
    Encode3(SerializeTxCodec(), c, before);
  }

  lemma TxActionsPart(c: SerializeTx)
    ensures EncodePart(SerializeTxCodec(), c, TX_ACTIONS) == EncodeField(Field(TX_ACTIONS, Blobs(c.actions)))
    ensures EncodePart(SerializeTxCodec(), c, TX_AUTH) == if c.auth == [] then [] else EncodeField(Field(TX_AUTH, Blob(c.auth)))
  {
  }

  /** The nested base, omitted when it is empty. */
  method NestedBaseSize(c: SerializeTx) returns (size: nat)
    ensures size == |EncodePart(SerializeTxCodec(), c, TX_BASE)|
  {
    size := 0;
    var fieldSize := BaseSize(c.base);
    if fieldSize != 0 {
      BlobField(TX_BASE, Encode(BaseCodec(), c.base));
      size := size + |TagByte(TX_BASE, LEN)| + SizeUint(fieldSize) + fieldSize;
    }
  }

  method MarshalNestedBaseInto(w: Writer, c: SerializeTx)
    modifies w
    ensures w.b == old(w.b) + EncodePart(SerializeTxCodec(), c, TX_BASE)
  {
    var fieldSize := BaseSize(c.base);
    if fieldSize != 0 {
      NestedField(w.b, TX_BASE, Encode(BaseCodec(), c.base));
      w.AppendHeader(TX_BASE, fieldSize);
      MarshalBaseInto(w, c.base);
    }
  }

  method SerializeTxSize(c: SerializeTx) returns (size: nat)
    ensures size == |Encode(SerializeTxCodec(), c)|
  {
    TxActionsPart(c);
    size := NestedBaseSize(c);
    var entries := SizeRepeated(TX_ACTIONS, c.actions);
    size := size + entries;
    if c.auth != [] {
      BlobField(TX_AUTH, c.auth);
      size := size + |TagByte(TX_AUTH, LEN)| + SizeBytes(c.auth);
    }
    WrittenTx(c, []);
  }

  method MarshalSerializeTxInto(w: Writer, c: SerializeTx)
    modifies w
    ensures w.b == old(w.b) + Encode(SerializeTxCodec(), c)
    ensures w.b == old(w.b) + SerializeTxBytes(c)
  {
    SerializeTxLayout(c);
    TxActionsPart(c);
    MarshalNestedBaseInto(w, c);
    w.AppendRepeated(TX_ACTIONS, c.actions);
    if c.auth != [] {
      w.AppendBytes(TX_AUTH, c.auth);
    }
    WrittenTx(c, old(w.b));
  }

  // ---- Known bytes ---------------------------------------------------------------------------

  function KnownChainId(): Id {
    [1, 2, 3, 4, 5, 6, 7, 0, 0, 0, 0, 0, 0, 0, 0, 0, 0, 0, 0, 0, 0, 0, 0, 0, 0, 0, 0, 0, 0, 0, 0, 0]
  }

  lemma KnownIdField()
    ensures WireBytes.IdField(0x12, KnownChainId()) == [0x12, 0x20] + KnownChainId()
  {
    assert KnownChainId()[0] == 1;
  }

  /** The base that the repository's tests sign, as the bytes written out there. */
  lemma KnownBaseBytes()
    ensures BaseBytes(Base(1724315246000, KnownChainId(), 1234567))
         == [0x08, 0xe0, 0xf6, 0x94, 0x93, 0xaf, 0x64, 0x12, 0x20] + KnownChainId()
            + [0x19, 0x87, 0xd6, 0x12, 0x00, 0x00, 0x00, 0x00, 0x00]
  {
    hide Varint, KnownChainId, ZigZag, WireBytes.EightBytes, WireBytes.IdField;
    KnownTimestamp();
    KnownIdField();
    KnownFee();
  }

  lemma KnownTimestamp()
    ensures Varint(ZigZag(1724315246000)) == [0xe0, 0xf6, 0x94, 0x93, 0xaf, 0x64]
  {
    assert Varint(100) == [0x64];
    assert Varint(12847) == [0xaf, 0x64];
    assert Varint(1644435) == [0x93, 0xaf, 0x64];
    assert Varint(210487700) == [0x94, 0x93, 0xaf, 0x64];
    assert Varint(26942425718) == [0xf6, 0x94, 0x93, 0xaf, 0x64];
    assert Varint(3448630492000) == [0xe0, 0xf6, 0x94, 0x93, 0xaf, 0x64];
  }

  lemma KnownFee()
    ensures WireBytes.WordField(0x19, 1234567) == [0x19, 0x87, 0xd6, 0x12, 0x00, 0x00, 0x00, 0x00, 0x00]
  {
  }

  /** And the transaction they sign with it, whatever its action of 54 bytes and its auth of 92 bytes are. */
  lemma KnownTxBytes(action: seq<Byte>, auth: seq<Byte>)
    requires |action| == 54 && |auth| == 92
    ensures var base := Base(1724315246000, KnownChainId(), 1234567);
            SerializeTxBytes(SerializeTx(base, [action], auth))
            == [0x0a, 0x32] + BaseBytes(base) + [0x12, 0x36] + action + [0x1a, 0x5c] + auth
  {
    hide BaseBytes, KnownChainId;
    KnownBaseBytes();
    var base := Base(1724315246000, KnownChainId(), 1234567);
    assert |BaseBytes(base)| == 50;
    assert WireBytes.Entries(0x12, [action]) == [0x12, 0x36] + action;
  }
}
