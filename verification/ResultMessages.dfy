/** The results of transactions and of a block, with packed arrays of fixed-width words. */
module ResultMessages {
  import opened Bytes
  import opened Canoto
  import opened Fees
  import WireBytes

  // ---- Packed words -----------------------------------------------------------------------

  function Pack(ws: seq<U64>): (b: seq<Byte>)
    ensures |b| == WORD_LEN * |ws|
  {
    if ws == [] then [] else Word(ws[0]) + Pack(ws[1..])
  }

  /** Exactly n words: neither a short last word nor bytes left over. */
  function Unpack(b: seq<Byte>, n: nat): (r: Option<seq<U64>>)
    ensures r.Some? ==> |r.value| == n
  {
    if n == 0 then if b == [] then Some([]) else None
    else
      match ReadWord(b)
      case None => None
      case Some((w, rest)) =>
        match Unpack(rest, n - 1)
        case None => None
        case Some(ws) => Some([w] + ws)
  }

  lemma {:induction false} PackUnpacks(ws: seq<U64>)
    ensures Unpack(Pack(ws), |ws|) == Some(ws)
  {
    if ws != [] {
      WordReadsBack(ws[0], Pack(ws[1..]));
      PackUnpacks(ws[1..]);
      assert ws == [ws[0]] + ws[1..];
    }
  }

  lemma {:induction false} UnpackedPacks(b: seq<Byte>, n: nat)
    requires Unpack(b, n).Some?
    ensures Pack(Unpack(b, n).value) == b
  {
    if n > 0 {
      WordIsUnique(b);
      var rest := ReadWord(b).value.1;
      UnpackedPacks(rest, n - 1);
      assert Unpack(b, n).value[1..] == Unpack(rest, n - 1).value;
    }
  }

  /** Unpacking n more words behind the ones already read. */
  ghost function UnpackOnto(b: seq<Byte>, n: nat, done: seq<U64>): Option<seq<U64>> {
    match Unpack(b, n)
    case None => None
    case Some(ws) => Some(done + ws)
  }

  lemma UnpackOntoStep(b: seq<Byte>, n: nat, done: seq<U64>)
    requires n > 0
    ensures UnpackOnto(b, n, done)
         == (match ReadWord(b) case None => None case Some((w, rest)) => UnpackOnto(rest, n - 1, done + [w]))
  {
    match ReadWord(b)
    case None =>
    case Some((w, rest)) =>
      match Unpack(rest, n - 1)
      case None =>
      case Some(ws) => assert done + ([w] + ws) == (done + [w]) + ws;
  }

  lemma UnpackOntoEnds(b: seq<Byte>, n: nat, done: seq<U64>)
    ensures UnpackOnto(b, 0, done) == if b == [] then Some(done) else None
    ensures UnpackOnto(b, n, []) == Unpack(b, n)
  {
    assert done + [] == done;
    match Unpack(b, n)
    case None =>
    case Some(ws) => assert [] + ws == ws;
  }

  method ReadUnits(msgBytes: seq<Byte>) returns (res: Option<Dimensions>)
    ensures res == (match Unpack(msgBytes, FEE_DIMENSIONS) case None => None case Some(d) => Some(d))
  {
    var r := new Reader(msgBytes);
    var units: seq<U64> := [];
    UnpackOntoEnds(msgBytes, FEE_DIMENSIONS, units);
    for i := 0 to FEE_DIMENSIONS
      invariant |units| == i
      invariant UnpackOnto(r.b, FEE_DIMENSIONS - i, units) == Unpack(msgBytes, FEE_DIMENSIONS)
    {
      UnpackOntoStep(r.b, FEE_DIMENSIONS - i, units);
      var ok, w := r.ReadFint64();
      if !ok {
        return None;
      }
      units := units + [w];
    }
    UnpackOntoEnds(r.b, 0, units);
    res := if r.b != [] then None else Some(units);
  }

  // ---- Result -----------------------------------------------------------------------------

  datatype Result = Result(success: bool, error: seq<Byte>, outputs: seq<seq<Byte>>, units: Dimensions, fee: U64)

  const SUCCESS := 1
  const ERROR := 2
  const OUTPUTS := 3
  const UNITS := 4
  const FEE := 5

  const ZeroResult := Result(false, [], [], NoUnits, 0)

  function UnitsPart(d: Dimensions): Option<Raw> {
    if d == NoUnits then None else Some(Blob(Pack(d)))
  }

  function ResultPart(v: Result, n: nat): Option<Raw> {
    if n == SUCCESS then
      if v.success then Some(Vint(1)) else None
    else if n == ERROR then
      if v.error == [] then None else Some(Blob(v.error))
    else if n == OUTPUTS then
      if v.outputs == [] then None else Some(Blobs(v.outputs))
    else if n == UNITS then UnitsPart(v.units)
    else if n == FEE then
      if v.fee == 0 then None else Some(Fixed(v.fee))
    else None
  }

  function NonZeroUnits(b: seq<Byte>): Option<Dimensions> {
    match Unpack(b, FEE_DIMENSIONS)
    case None => None
    case Some(d) => if d == NoUnits then None else Some(d)
  }

  function StoreResult(c: Result, f: Field): Option<Result> {
    match f.raw
    case Vint(v) =>
      if f.num == SUCCESS && v == 1 then Some(c.(success := true)) else None
    case Blob(b) =>
      if f.num == ERROR && b != [] then Some(c.(error := b))
      else if f.num == UNITS then
        match NonZeroUnits(b)
        case None => None
        case Some(d) => Some(c.(units := d))
      else None
    case Blobs(bs) =>
      if f.num == OUTPUTS && bs != [] then Some(c.(outputs := bs)) else None
    case Fixed(w) =>
      if f.num == FEE && w != 0 then Some(c.(fee := w)) else None
  }

  function AnyResult(c: Result): bool { true }

  function ResultCodec(): Codec<Result> {
    Codec(map[SUCCESS := KVarint, ERROR := KBytes, OUTPUTS := KRepeated, UNITS := KBytes, FEE := KWord],
          ZeroResult, ResultPart, StoreResult, AnyResult)
  }

  lemma UnitsLaw(d: Dimensions)
    ensures UnitsPart(d).Some? ==> NonZeroUnits(UnitsPart(d).value.b) == Some(d)
  {
    PackUnpacks(d);
  }

  lemma NonZeroUnitsLaw(b: seq<Byte>)
    requires NonZeroUnits(b).Some?
    ensures UnitsPart(NonZeroUnits(b).value) == Some(Blob(b))
  {
    UnpackedPacks(b, FEE_DIMENSIONS);
  }

  lemma StoreResultLaw(c: Result, f: Field)
    requires StoreResult(c, f).Some?
    ensures Stored(ResultCodec(), c, f, StoreResult(c, f).value)
  {
    if f.num == UNITS {
      NonZeroUnitsLaw(f.raw.b);
    }
  }

  lemma ResultPartsDetermine(u: Result, v: Result)
    requires SameParts(ResultCodec(), u, v)
    ensures u == v
  {
    var k := ResultCodec();
    assert k.part(u, SUCCESS) == k.part(v, SUCCESS);
    assert k.part(u, ERROR) == k.part(v, ERROR);
    assert k.part(u, OUTPUTS) == k.part(v, OUTPUTS);
    assert k.part(u, UNITS) == k.part(v, UNITS);
    assert k.part(u, FEE) == k.part(v, FEE);
    UnitsLaw(u.units);
    UnitsLaw(v.units);
  }

  lemma ResultLawful()
    ensures Lawful(ResultCodec())
  {
    var k := ResultCodec();
    forall c, f | k.store(c, f).Some? ensures Stored(k, c, f, k.store(c, f).value) {
      StoreResultLaw(c, f);
    }
    forall c, v, n: nat | k.part(v, n).Some? ensures k.store(c, Field(n, k.part(v, n).value)).Some? {
      UnitsLaw(v.units);
    }
    forall u, v | SameParts(k, u, v) ensures u == v {
      ResultPartsDetermine(u, v);
    }
  }

  /** A byte string is a result exactly when it is the encoding of one. */
  lemma ResultDecodesItsEncoding(b: seq<Byte>, v: Result)
    ensures Decode(ResultCodec(), b) == Some(v) <==> Encode(ResultCodec(), v) == b
  {
    ResultLawful();
    DecodeInvertsEncode(ResultCodec(), b, v);
  }

  /** Five words as forty counted bytes, absent when all are zero. */
  function UnitsBytes(tag: Byte, d: Dimensions): seq<Byte> {
    if d == [0, 0, 0, 0, 0] then []
    else
      [tag, 0x28]
      + (WireBytes.EightBytes(d[0]) + (WireBytes.EightBytes(d[1]) + (WireBytes.EightBytes(d[2])
      + (WireBytes.EightBytes(d[3]) + WireBytes.EightBytes(d[4])))))
  }

  /** A result on the wire: whether it succeeded, its error, its outputs, its units and its fee. */
  function ResultBytes(v: Result): seq<Byte> {
    (if v.success then [0x08, 0x01] else [])
    + WireBytes.CountedField(0x12, v.error)
    + WireBytes.Entries(0x1a, v.outputs)
    + UnitsBytes(0x22, v.units)
    + WireBytes.WordField(0x29, v.fee)
  }

  lemma PackedBytes(d: Dimensions)
    ensures Pack(d)
         == WireBytes.EightBytes(d[0]) + (WireBytes.EightBytes(d[1]) + (WireBytes.EightBytes(d[2])
            + (WireBytes.EightBytes(d[3]) + WireBytes.EightBytes(d[4]))))
  {
    hide Word, WireBytes.EightBytes;
    PackCons(d);
    PackCons(d[1..]);
    PackCons(d[2..]);
    PackCons(d[3..]);
    PackCons(d[4..]);
    assert d[1..][1..] == d[2..] && d[2..][1..] == d[3..] && d[3..][1..] == d[4..] && d[4..][1..] == [];
    assert WireBytes.EightBytes(d[4]) + [] == WireBytes.EightBytes(d[4]);
  }

  lemma PackCons(ws: seq<U64>)
    requires ws != []
    ensures Pack(ws) == WireBytes.EightBytes(ws[0]) + Pack(ws[1..])
    ensures Pack([]) == []
  {
    WireBytes.WordBytes(ws[0]);
  }

  lemma UnitsLayout(num: nat, d: Dimensions)
    requires 0 < num < 16
    ensures UnitsField(num, d) == UnitsBytes(8 * num + 2, d)
  {
    PackedBytes(d);
    hide WireBytes.EightBytes, Pack, EncodeField;
    WireBytes.FieldBytes(num);
    assert Varint(40) == [0x28];
  }

  lemma ResultFields(v: Result)
    ensures SuccessField(v.success) == if v.success then [0x08, 0x01] else []
    ensures ErrorField(v.error) == WireBytes.CountedField(0x12, v.error)
    ensures EncodeField(Field(OUTPUTS, Blobs(v.outputs))) == WireBytes.Entries(0x1a, v.outputs)
    ensures UnitsField(UNITS, v.units) == UnitsBytes(0x22, v.units)
    ensures FeeField(v.fee) == WireBytes.WordField(0x29, v.fee)
  {
    hide EncodeField, UnitsField, UnitsBytes, WireBytes.EightBytes;
    WireBytes.FieldBytes(1);
    WireBytes.FieldBytes(2);
    WireBytes.FieldBytes(3);
    WireBytes.FieldBytes(5);
    UnitsLayout(4, v.units);
    assert Varint(1) == [0x01];
  }

  lemma ResultLayout(v: Result)
    ensures Encode(ResultCodec(), v) == ResultBytes(v)
  {
    ResultFields(v);
    ResultParts(v);
    hide Encode, EncodePart, SuccessField, ErrorField, UnitsField, FeeField, EncodeField;
    hide UnitsBytes, WireBytes.CountedField, WireBytes.Entries, WireBytes.WordField;
    var k := ResultCodec();
    WrittenResult(v, []);
    assert [] + EncodePart(k, v, 1) == EncodePart(k, v, 1) && [] + Encode(k, v) == Encode(k, v);
  }

  /** A byte string is read as a result exactly when it looks like that. */
  lemma ResultReads(bytes: seq<Byte>)
    ensures forall v :: Decode(ResultCodec(), bytes) == Some(v) <==> bytes == ResultBytes(v)
  {
    forall v ensures Decode(ResultCodec(), bytes) == Some(v) <==> bytes == ResultBytes(v) {
      ResultLayout(v);
      ResultDecodesItsEncoding(bytes, v);
    }
  }

  method ReadResultField(r: Reader, c: Result, field: nat, wireType: nat) returns (res: Option<Result>)
    modifies r
    ensures match ReadAndStore(ResultCodec(), c, field, wireType, old(r.b))
            case None => res.None?
            case Some((c', rest)) => res == Some(c') && r.b == rest
  {
    hide ReadVarint, Encode;
    if field == SUCCESS && wireType == VARINT {
      var ok, v := r.ReadUint();
      return if ok && v == 1 then Some(c.(success := true)) else None;
    } else if field == ERROR && wireType == LEN {
      var ok, error := r.ReadBytes();
      return if ok && error != [] then Some(c.(error := error)) else None;
    } else if field == OUTPUTS && wireType == LEN {
      var ok, outputs := r.ReadRepeated(8 * OUTPUTS + LEN);
      return if ok then Some(c.(outputs := outputs)) else None;
    } else if field == UNITS && wireType == LEN {
      var ok, msgBytes := r.ReadBytes();
      if !ok {
        return None;
      }
      var units := ReadUnits(msgBytes);
      return if units.Some? && units.value != NoUnits then Some(c.(units := units.value)) else None;
    } else if field == FEE && wireType == FIXED64 {
      var ok, w := r.ReadFint64();
      return if ok && w != 0 then Some(c.(fee := w)) else None;
    } else {
      return None;
    }
  }

  method UnmarshalResult(bytes: seq<Byte>) returns (res: Option<Result>)
    ensures res == Decode(ResultCodec(), bytes)
    ensures forall v :: res == Some(v) <==> bytes == ResultBytes(v)
  {
    ResultReads(bytes);
    ghost var k := ResultCodec();
    var r := new Reader(bytes);
    var c, minField := ZeroResult, 0;
    while r.b != []
      invariant Continue(k, c, r.b, minField) == Decode(k, bytes)
      decreases |r.b|
    {
      ghost var b0 := r.b;
      var ok, field, wireType := r.ReadTag();
      if !ok || field < minField {
        ContinueRefused(k, c, b0, minField);
        return None;
      }
      ContinueStep(k, c, b0, minField, field, wireType, r.b);
      var c' := ReadResultField(r, c, field, wireType);
      if c'.None? {
        return None;
      }
      c, minField := c'.value, field + 1;
    }
    ContinueEnd(k, c, minField);
    res := Some(c);
  }

  lemma WrittenResult(c: Result, before: seq<Byte>)
    ensures var k := ResultCodec();
            before + EncodePart(k, c, SUCCESS) + EncodePart(k, c, ERROR) + EncodePart(k, c, OUTPUTS)
            + EncodePart(k, c, UNITS) + EncodePart(k, c, FEE) == before + Encode(k, c)
  {
    ResultLawful();
    Encode5(ResultCodec(), c, before);
  }

  lemma ResultParts(c: Result)
    ensures var k := ResultCodec();
            && EncodePart(k, c, SUCCESS) == SuccessField(c.success)
            && EncodePart(k, c, ERROR) == ErrorField(c.error)
            && EncodePart(k, c, OUTPUTS) == EncodeField(Field(OUTPUTS, Blobs(c.outputs)))
            && EncodePart(k, c, UNITS) == UnitsField(UNITS, c.units)
            && EncodePart(k, c, FEE) == FeeField(c.fee)
  {
  }

  function SuccessField(success: bool): seq<Byte> {
    if success then EncodeField(Field(SUCCESS, Vint(1))) else []
  }

  function ErrorField(error: seq<Byte>): seq<Byte> {
    if error == [] then [] else EncodeField(Field(ERROR, Blob(error)))
  }

  function UnitsField(num: nat, d: Dimensions): seq<Byte> {
    if d == NoUnits then [] else EncodeField(Field(num, Blob(Pack(d))))
  }

  function FeeField(fee: U64): seq<Byte> {
    if fee == 0 then [] else EncodeField(Field(FEE, Fixed(fee)))
  }

  /** The size of a packed array does not depend on its values. */
  const UNITS_SIZE := FEE_DIMENSIONS * WORD_LEN

  method ResultSize(c: Result) returns (size: nat)
    ensures size == |Encode(ResultCodec(), c)|
  {
    ResultParts(c);
    size := SuccessAndErrorSize(c);
    var entries := SizeRepeated(OUTPUTS, c.outputs);
    var units := UnitsFieldSize(UNITS, c.units);
    var fee := FeeFieldSize(c.fee);
    size := size + entries + units + fee;
    WrittenResult(c, []);
  }

  method SuccessAndErrorSize(c: Result) returns (size: nat)
    ensures size == |SuccessField(c.success)| + |ErrorField(c.error)|
  {
    size := 0;
    if c.success {
      VintField(SUCCESS, 1);
      size := size + |TagByte(SUCCESS, VARINT)| + 1;
    }
    if c.error != [] {
      BlobField(ERROR, c.error);
      size := size + |TagByte(ERROR, LEN)| + SizeBytes(c.error);
    }
  }

  method UnitsFieldSize(num: nat, d: Dimensions) returns (size: nat)
    requires num < LIMIT
    ensures size == |UnitsField(num, d)|
  {
    size := 0;
    if d != NoUnits {
      BlobField(num, Pack(d));
      size := |TagByte(num, LEN)| + UNITS_SIZE + SizeUint(UNITS_SIZE);
    }
  }

  method FeeFieldSize(fee: U64) returns (size: nat)
    ensures size == |FeeField(fee)|
  {
    size := 0;
    if fee != 0 {
      FixedField(FEE, fee);
      size := |TagByte(FEE, FIXED64)| + WORD_LEN;
    }
  }

  /** The header of a packed array, then its words one by one. */
  method AppendUnits(w: Writer, num: nat, d: Dimensions)
    requires num < LIMIT
    modifies w
    ensures w.b == old(w.b) + EncodeField(Field(num, Blob(Pack(d))))
  {
    NestedField(w.b, num, Pack(d));
    w.AppendHeader(num, UNITS_SIZE);
    ghost var w0 := w.b;
    assert Pack([]) == [] && d[..0] == [] && w0 + [] == w0;
    for i := 0 to FEE_DIMENSIONS
      invariant w.b == w0 + Pack(d[..i])
    {
      PackSnoc(d[..i], d[i]);
      assert d[..i + 1] == d[..i] + [d[i]];
      ConcatAssociates(w0, Pack(d[..i]), Word(d[i]));
      w.Append(Word(d[i]));
    }
    assert d[..FEE_DIMENSIONS] == d;
  }

  lemma {:induction false} PackSnoc(ws: seq<U64>, w: U64)
    ensures Pack(ws + [w]) == Pack(ws) + Word(w)
  {
    if ws == [] {
      assert ws + [w] == [w];
    } else {
      PackSnoc(ws[1..], w);
      assert (ws + [w])[1..] == ws[1..] + [w];
      ConcatAssociates(Word(ws[0]), Pack(ws[1..]), Word(w));
    }
  }

  method MarshalResultInto(w: Writer, c: Result)
    modifies w
    ensures w.b == old(w.b) + Encode(ResultCodec(), c)
    ensures w.b == old(w.b) + ResultBytes(c)
  {
    hide ResultBytes, Encode, EncodeField, SuccessField, ErrorField, FeeField, UnitsField;
    ResultLayout(c);
    ResultParts(c);
    ghost var k, w0 := ResultCodec(), w.b;
    ghost var p1, p2, p3 := EncodePart(k, c, SUCCESS), EncodePart(k, c, ERROR), EncodePart(k, c, OUTPUTS);
    if c.success {
      w.AppendUint(SUCCESS, 1);
    }
    assert w.b == w0 + p1;
    if c.error != [] {
      w.AppendBytes(ERROR, c.error);
    }
    assert w.b == w0 + p1 + p2;
    w.AppendRepeated(OUTPUTS, c.outputs);
    ghost var w3 := w0 + p1 + p2 + p3;
    assert w.b == w3;
    if c.units != NoUnits {
      AppendUnits(w, UNITS, c.units);
    }
    assert w.b == w3 + EncodePart(k, c, UNITS);
    if c.fee != 0 {
      w.AppendFint64(FEE, c.fee);
    }
    assert w.b == w3 + EncodePart(k, c, UNITS) + EncodePart(k, c, FEE);
    WrittenResult(c, w0);
  }

  // ---- ExecutionResults -------------------------------------------------------------------

  /** A nil result is an empty entry on the wire, and so is a result with every field zero. */
  datatype ExecutionResults = ExecutionResults(
    results: seq<Option<Result>>, unitPrices: Dimensions, unitsConsumed: Dimensions)

  const RESULTS := 1
  const UNIT_PRICES := 2
  const UNITS_CONSUMED := 3

  const ZeroExecution := ExecutionResults([], NoUnits, NoUnits)

  function EncodeResult(r: Result): seq<Byte> {
    Encode(ResultCodec(), r)
  }

  function DecodeResult(b: seq<Byte>): Option<Result> {
    Decode(ResultCodec(), b)
  }

  function ExecutionPart(v: ExecutionResults, n: nat): Option<Raw> {
    if n == RESULTS then
      if v.results == [] then None else Some(Blobs(EncodeEach(EncodeResult, v.results)))
    else if n == UNIT_PRICES then UnitsPart(v.unitPrices)
    else if n == UNITS_CONSUMED then UnitsPart(v.unitsConsumed)
    else None
  }

  function StoreExecution(c: ExecutionResults, f: Field): Option<ExecutionResults> {
    match f.raw
    case Blobs(bs) =>
      if f.num != RESULTS || bs == [] then None
      else
        (match DecodeEach(DecodeResult, bs)
         case None => None
         case Some(results) => Some(c.(results := results)))
    case Blob(b) =>
      (match NonZeroUnits(b)
       case None => None
       case Some(d) =>
         if f.num == UNIT_PRICES then Some(c.(unitPrices := d))
         else if f.num == UNITS_CONSUMED then Some(c.(unitsConsumed := d))
         else None)
    case _ => None
  }

  function NoZeroResult(v: ExecutionResults): bool {
    Some(ZeroResult) !in v.results
  }

  function ExecutionCodec(): Codec<ExecutionResults> {
    Codec(map[RESULTS := KRepeated, UNIT_PRICES := KBytes, UNITS_CONSUMED := KBytes],
          ZeroExecution, ExecutionPart, StoreExecution, NoZeroResult)
  }

  lemma ResultEntries()
    ensures ReadsOnlyItsPrint(EncodeResult, DecodeResult)
    ensures forall x :: Readable(EncodeResult, DecodeResult, x) <==> x != Some(ZeroResult)
  {
    ResultLawful();
    forall b | DecodeResult(b).Some? ensures EncodeResult(DecodeResult(b).value) == b {
      EncodeDecode(ResultCodec(), b);
    }
    ZeroEncodesEmpty(ResultCodec());
    forall x ensures Readable(EncodeResult, DecodeResult, x) <==> x != Some(ZeroResult) {
      if x.Some? {
        DecodeEncode(ResultCodec(), x.value);
        if EncodeResult(x.value) == [] {
          EncodeInjective(ResultCodec(), x.value, ZeroResult);
        }
      }
    }
  }

  lemma StoreExecutionLaw(c: ExecutionResults, f: Field)
    requires NoZeroResult(c) && StoreExecution(c, f).Some?
    ensures Stored(ExecutionCodec(), c, f, StoreExecution(c, f).value)
  {
    ResultEntries();
    match f.raw {
      case Blobs(bs) => EncodeDecodeEach(EncodeResult, DecodeResult, bs);
      case Blob(b) => NonZeroUnitsLaw(b);
      case _ =>
    }
  }

  lemma ExecutionPartLaw(c: ExecutionResults, v: ExecutionResults, n: nat)
    requires NoZeroResult(v) && ExecutionPart(v, n).Some?
    ensures StoreExecution(c, Field(n, ExecutionPart(v, n).value)).Some?
  {
    ResultEntries();
    DecodeEncodeEach(EncodeResult, DecodeResult, v.results);
    UnitsLaw(v.unitPrices);
    UnitsLaw(v.unitsConsumed);
  }

  lemma ExecutionPartsDetermine(u: ExecutionResults, v: ExecutionResults)
    requires NoZeroResult(u) && NoZeroResult(v) && SameParts(ExecutionCodec(), u, v)
    ensures u == v
  {
    var k := ExecutionCodec();
    assert k.part(u, RESULTS) == k.part(v, RESULTS);
    assert k.part(u, UNIT_PRICES) == k.part(v, UNIT_PRICES);
    assert k.part(u, UNITS_CONSUMED) == k.part(v, UNITS_CONSUMED);
    ResultEntries();
    DecodeEncodeEach(EncodeResult, DecodeResult, u.results);
    DecodeEncodeEach(EncodeResult, DecodeResult, v.results);
    UnitsLaw(u.unitPrices);
    UnitsLaw(v.unitPrices);
    UnitsLaw(u.unitsConsumed);
    UnitsLaw(v.unitsConsumed);
  }

  lemma ExecutionLawful()
    ensures Lawful(ExecutionCodec())
  {
    var k := ExecutionCodec();
    forall c, f | k.canonical(c) && k.store(c, f).Some? ensures Stored(k, c, f, k.store(c, f).value) {
      StoreExecutionLaw(c, f);
    }
    forall c, v, n: nat | k.canonical(v) && k.part(v, n).Some?
      ensures k.store(c, Field(n, k.part(v, n).value)).Some?
    {
      ExecutionPartLaw(c, v, n);
    }
    forall u, v | k.canonical(u) && k.canonical(v) && SameParts(k, u, v) ensures u == v {
      ExecutionPartsDetermine(u, v);
    }
  }

  // The nil identification: a zero result is written exactly like a nil one.

  function NilIfZero(xs: seq<Option<Result>>): (ys: seq<Option<Result>>)
    ensures |ys| == |xs|
    ensures forall i :: 0 <= i < |xs| ==> ys[i] == if xs[i] == Some(ZeroResult) then None else xs[i]
  {
    if xs == [] then []
    else [if xs[0] == Some(ZeroResult) then None else xs[0]] + NilIfZero(xs[1..])
  }

  lemma {:induction false} NilAndZeroEncodeAlike(xs: seq<Option<Result>>)
    ensures EncodeEach(EncodeResult, NilIfZero(xs)) == EncodeEach(EncodeResult, xs)
  {
    ResultLawful();
    ZeroEncodesEmpty(ResultCodec());
    if xs != [] {
      NilAndZeroEncodeAlike(xs[1..]);
      assert NilIfZero(xs)[1..] == NilIfZero(xs[1..]);
    }
  }

  /** Any execution results survive the wire, up to a zero result coming back as nil. */
  lemma ExecutionRoundTrip(v: ExecutionResults)
    ensures Decode(ExecutionCodec(), Encode(ExecutionCodec(), v)) == Some(v.(results := NilIfZero(v.results)))
  {
    var k, u := ExecutionCodec(), v.(results := NilIfZero(v.results));
    ExecutionLawful();
    NilAndZeroEncodeAlike(v.results);
    forall n: nat ensures k.part(u, n) == k.part(v, n) {
    }
    SamePartsEncodeAlike(k, u, v);
    DecodeEncode(k, u);
  }

  /** A byte string is a block's results exactly when it is their encoding and none of them is a zero
      result, which is read back as nil. */
  lemma ExecutionDecodesItsEncoding(b: seq<Byte>, v: ExecutionResults)
    ensures Decode(ExecutionCodec(), b) == Some(v) <==> Some(ZeroResult) !in v.results && Encode(ExecutionCodec(), v) == b
  {
    ExecutionLawful();
    DecodeInvertsEncode(ExecutionCodec(), b, v);
  }

  /** The results of a block on the wire: an entry for each result, and the two lists of units. */
  function ExecutionBytes(v: ExecutionResults): seq<Byte> {
    WireBytes.Entries(0x0a, WireBytes.EntryEach(ResultBytes, v.results))
    + UnitsBytes(0x12, v.unitPrices)
    + UnitsBytes(0x1a, v.unitsConsumed)
  }

  lemma {:induction false} EachResultBytes(xs: seq<Option<Result>>)
    ensures EncodeEach(EncodeResult, xs) == WireBytes.EntryEach(ResultBytes, xs)
  {
    WireBytes.EntryEachBytes(EncodeResult, xs);
    forall i | 0 <= i < |xs| && xs[i].Some? ensures EncodeResult(xs[i].value) == ResultBytes(xs[i].value) {
      ResultLayout(xs[i].value);
    }
  }

  lemma ExecutionFields(v: ExecutionResults)
    ensures var k := ExecutionCodec();
            && EncodePart(k, v, 1) == WireBytes.Entries(0x0a, WireBytes.EntryEach(ResultBytes, v.results))
            && EncodePart(k, v, 2) == UnitsBytes(0x12, v.unitPrices)
            && EncodePart(k, v, 3) == UnitsBytes(0x1a, v.unitsConsumed)
  {
    EachResultBytes(v.results);
    UnitsLayout(2, v.unitPrices);
    UnitsLayout(3, v.unitsConsumed);
    WireBytes.FieldBytes(1);
    ExecutionParts(v);
    hide EncodePart, UnitsField, EncodeField, EncodeEach, UnitsBytes, WireBytes.Entries, WireBytes.EntryEach;
  }

  lemma ExecutionLayout(v: ExecutionResults)
    ensures Encode(ExecutionCodec(), v) == ExecutionBytes(v)
  {
    ExecutionFields(v);
    hide Encode, EncodePart, UnitsBytes, WireBytes.Entries, WireBytes.EntryEach;
    var k := ExecutionCodec();
    WrittenExecution(v, []);
    assert [] + EncodePart(k, v, 1) == EncodePart(k, v, 1) && [] + Encode(k, v) == Encode(k, v);
  }

  lemma ExecutionReads(bytes: seq<Byte>)
    ensures forall v :: Decode(ExecutionCodec(), bytes) == Some(v)
                        <==> Some(ZeroResult) !in v.results && bytes == ExecutionBytes(v)
  {
    forall v
      ensures Decode(ExecutionCodec(), bytes) == Some(v) <==> Some(ZeroResult) !in v.results && bytes == ExecutionBytes(v)
    {
      ExecutionLayout(v);
      ExecutionDecodesItsEncoding(bytes, v);
    }
  }

  method DecodeResultEntry(entry: seq<Byte>) returns (res: Option<Option<Result>>)
    ensures res == DecodeEntry(DecodeResult, entry)
  {
    if entry == [] {
      return Some(None);
    }
    var result := UnmarshalResult(entry);
    res := if result.None? then None else Some(result);
  }

  method DecodeResults(entries: seq<seq<Byte>>) returns (res: Option<seq<Option<Result>>>)
    ensures res == DecodeEach(DecodeResult, entries)
  {
    ghost var dec := DecodeResult;
    var results := [];
    DecodeOntoEnds(dec, entries, results);
    for i := 0 to |entries|
      invariant DecodeOnto(dec, entries[i..], results) == DecodeEach(dec, entries)
    {
      DecodeOntoStep(dec, entries, i, results);
      var result := DecodeResultEntry(entries[i]);
      if result.None? {
        return None;
      }
      results := results + [result.value];
    }
    DecodeOntoEnds(dec, entries, results);
    res := Some(results);
  }

  method ReadResultsField(r: Reader, c: ExecutionResults) returns (res: Option<ExecutionResults>)
    modifies r
    ensures match ReadAndStore(ExecutionCodec(), c, RESULTS, LEN, old(r.b))
            case None => res.None?
            case Some((c', rest)) => res == Some(c') && r.b == rest
  {
    var ok, entries := r.ReadRepeated(8 * RESULTS + LEN);
    if !ok {
      return None;
    }
    var results := DecodeResults(entries);
    res := if results.Some? then Some(c.(results := results.value)) else None;
  }

  method ReadExecutionField(r: Reader, c: ExecutionResults, field: nat, wireType: nat) returns (res: Option<ExecutionResults>)
    modifies r
    ensures match ReadAndStore(ExecutionCodec(), c, field, wireType, old(r.b))
            case None => res.None?
            case Some((c', rest)) => res == Some(c') && r.b == rest
  {
    if field == RESULTS && wireType == LEN {
      res := ReadResultsField(r, c);
    } else if (field == UNIT_PRICES || field == UNITS_CONSUMED) && wireType == LEN {
      var ok, msgBytes := r.ReadBytes();
      if !ok {
        return None;
      }
      var units := ReadUnits(msgBytes);
      if units.None? || units.value == NoUnits {
        return None;
      }
      return Some(if field == UNIT_PRICES then c.(unitPrices := units.value) else c.(unitsConsumed := units.value));
    } else {
      return None;
    }
  }

  method UnmarshalExecutionResults(bytes: seq<Byte>) returns (res: Option<ExecutionResults>)
    ensures res == Decode(ExecutionCodec(), bytes)
    ensures forall v :: res == Some(v) <==> Some(ZeroResult) !in v.results && bytes == ExecutionBytes(v)
  {
    ExecutionReads(bytes);
    ghost var k := ExecutionCodec();
    var r := new Reader(bytes);
    var c, minField := ZeroExecution, 0;
    while r.b != []
      invariant Continue(k, c, r.b, minField) == Decode(k, bytes)
      decreases |r.b|
    {
      ghost var b0 := r.b;
      var ok, field, wireType := r.ReadTag();
      if !ok || field < minField {
        ContinueRefused(k, c, b0, minField);
        return None;
      }
      ContinueStep(k, c, b0, minField, field, wireType, r.b);
      var c' := ReadExecutionField(r, c, field, wireType);
      if c'.None? {
        return None;
      }
      c, minField := c'.value, field + 1;
    }
    ContinueEnd(k, c, minField);
    res := Some(c);
  }

  lemma WrittenExecution(c: ExecutionResults, before: seq<Byte>)
    ensures var k := ExecutionCodec();
            before + EncodePart(k, c, RESULTS) + EncodePart(k, c, UNIT_PRICES) + EncodePart(k, c, UNITS_CONSUMED)
            == before + Encode(k, c)
  {
    ExecutionLawful();
    Encode3(ExecutionCodec(), c, before);
  }

  lemma ExecutionParts(c: ExecutionResults)
    ensures var k := ExecutionCodec();
            && EncodePart(k, c, RESULTS) == EncodeField(Field(RESULTS, Blobs(EncodeEach(EncodeResult, c.results))))
            && EncodePart(k, c, UNIT_PRICES) == UnitsField(UNIT_PRICES, c.unitPrices)
            && EncodePart(k, c, UNITS_CONSUMED) == UnitsField(UNITS_CONSUMED, c.unitsConsumed)
  {
  }

  method ExecutionResultsSize(c: ExecutionResults) returns (size: nat)
    ensures size == |Encode(ExecutionCodec(), c)|
  {
    ExecutionParts(c);
    size := ResultEntriesSize(c.results);
    var prices := UnitsFieldSize(UNIT_PRICES, c.unitPrices);
    var consumed := UnitsFieldSize(UNITS_CONSUMED, c.unitsConsumed);
    size := size + prices + consumed;
    WrittenExecution(c, []);
  }

  method EntrySize(x: Option<Result>) returns (size: nat)
    ensures size == |EncodeEntry(EncodeResult, x)|
  {
    size := 0;
    if x.Some? {
      size := ResultSize(x.value);
    }
  }

  method ResultEntriesSize(xs: seq<Option<Result>>) returns (size: nat)
    ensures size == |EncodeField(Field(RESULTS, Blobs(EncodeEach(EncodeResult, xs))))|
  {
    ghost var enc := EncodeResult;
    size := 0;
    for i := 0 to |xs|
      invariant size == |EntriesTo(RESULTS, enc, xs, i)|
    {
      var fieldSize := EntrySize(xs[i]);
      EntriesToStep(RESULTS, enc, xs, i);
      BlobField(RESULTS, EncodeEntry(enc, xs[i]));
      size := size + |TagByte(RESULTS, LEN)| + SizeUint(fieldSize) + fieldSize;
    }
    EntriesToAll(RESULTS, enc, xs);
  }

  method MarshalResultEntries(w: Writer, xs: seq<Option<Result>>)
    modifies w
    ensures w.b == old(w.b) + EncodeField(Field(RESULTS, Blobs(EncodeEach(EncodeResult, xs))))
  {
    ghost var enc, w0 := EncodeResult, w.b;
    for i := 0 to |xs|
      invariant w.b == w0 + EntriesTo(RESULTS, enc, xs, i)
    {
      EntriesToStep(RESULTS, enc, xs, i);
      ConcatAssociates(w0, EntriesTo(RESULTS, enc, xs, i), EncodeField(Field(RESULTS, Blob(EncodeEntry(enc, xs[i])))));
      MarshalResultEntry(w, xs[i]);
    }
    EntriesToAll(RESULTS, enc, xs);
  }

  method MarshalResultEntry(w: Writer, x: Option<Result>)
    modifies w
    ensures w.b == old(w.b) + EncodeField(Field(RESULTS, Blob(EncodeEntry(EncodeResult, x))))
  {
    var fieldSize := EntrySize(x);
    NestedField(w.b, RESULTS, EncodeEntry(EncodeResult, x));
    w.AppendHeader(RESULTS, fieldSize);
    if fieldSize != 0 {
      MarshalResultInto(w, x.value);
    }
  }

  method MarshalExecutionResultsInto(w: Writer, c: ExecutionResults)
    modifies w
    ensures w.b == old(w.b) + Encode(ExecutionCodec(), c)
    ensures w.b == old(w.b) + ExecutionBytes(c)
  {
    hide ExecutionBytes, Encode, EncodeEach;
    ExecutionLayout(c);
    ExecutionParts(c);
    MarshalResultEntries(w, c.results);
    if c.unitPrices != NoUnits {
      AppendUnits(w, UNIT_PRICES, c.unitPrices);
    }
    if c.unitsConsumed != NoUnits {
      AppendUnits(w, UNITS_CONSUMED, c.unitsConsumed);
    }
    WrittenExecution(c, old(w.b));
  }
}
