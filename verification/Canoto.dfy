/** The message layer shared by the generated codecs: a message is a sequence of fields with
    strictly increasing numbers, each a tag followed by a payload of the kind its schema gives. */
module Canoto {
  import opened Bytes

  /** What a field holds. A fixed byte array is a Bytes field whose length the message checks. */
  datatype Kind = KVarint | KWord | KBytes | KRepeated

  datatype Raw =
    | Vint(v: U64)
    | Fixed(w: U64)
    | Blob(b: seq<Byte>)
    | Blobs(bs: seq<seq<Byte>>)

  datatype Field = Field(num: nat, raw: Raw)

  type Schema = map<nat, Kind>

  // Wire types, section "Message Structure" of the Protocol Buffers encoding specification.
  const VARINT := 0
  const FIXED64 := 1
  const LEN := 2

  function WireType(k: Kind): nat {
    match k
    case KVarint => VARINT
    case KWord => FIXED64
    case KBytes => LEN
    case KRepeated => LEN
  }

  function Tag(num: nat, k: Kind): nat {
    8 * num + WireType(k)
  }

  /** Field numbers whose tag is one byte; every message of the chain stays below this. */
  ghost predicate SmallSchema(s: Schema) {
    forall num <- s :: 1 <= num < 16
  }

  ghost predicate HasKind(raw: Raw, k: Kind) {
    match k
    case KVarint => raw.Vint?
    case KWord => raw.Fixed?
    case KBytes => raw.Blob?
    case KRepeated => raw.Blobs? && raw.bs != []
  }

  /** Fields that follow the schema, in strictly increasing order from min on. */
  ghost predicate Conforms(s: Schema, fs: seq<Field>, min: nat) {
    fs == [] ||
    (&& min <= fs[0].num
     && fs[0].num in s
     && HasKind(fs[0].raw, s[fs[0].num])
     && Conforms(s, fs[1..], fs[0].num + 1))
  }

  // ---- Writing ----------------------------------------------------------------------------

  function EncodeEntries(tag: nat, bs: seq<seq<Byte>>): seq<Byte> {
    if bs == [] then [] else Varint(tag) + Prefixed(bs[0]) + EncodeEntries(tag, bs[1..])
  }

  function EncodeField(f: Field): seq<Byte> {
    match f.raw
    case Vint(v) => Varint(Tag(f.num, KVarint)) + Varint(v)
    case Fixed(w) => Varint(Tag(f.num, KWord)) + Word(w)
    case Blob(b) => Varint(Tag(f.num, KBytes)) + Prefixed(b)
    case Blobs(bs) => EncodeEntries(Tag(f.num, KRepeated), bs)
  }

  function EncodeFields(fs: seq<Field>): seq<Byte> {
    if fs == [] then [] else EncodeField(fs[0]) + EncodeFields(fs[1..])
  }

  lemma ConcatAssociates(a: seq<Byte>, b: seq<Byte>, c: seq<Byte>)
    ensures (a + b) + c == a + (b + c)
  {
  }

  lemma EncodeFieldsCons(f: Field, fs: seq<Field>)
    ensures EncodeFields([f] + fs) == EncodeField(f) + EncodeFields(fs)
  {
    assert ([f] + fs)[1..] == fs;
  }

  lemma {:induction false} EncodeFieldsConcat(xs: seq<Field>, ys: seq<Field>)
    ensures EncodeFields(xs + ys) == EncodeFields(xs) + EncodeFields(ys)
  {
    if xs == [] {
      assert xs + ys == ys;
    } else {
      var f, xs' := xs[0], xs[1..];
      assert xs + ys == [f] + (xs' + ys) && xs == [f] + xs';
      calc {
        EncodeFields(xs + ys);
        { EncodeFieldsCons(f, xs' + ys); }
        EncodeField(f) + EncodeFields(xs' + ys);
        { EncodeFieldsConcat(xs', ys); }
        EncodeField(f) + (EncodeFields(xs') + EncodeFields(ys));
        { ConcatAssociates(EncodeField(f), EncodeFields(xs'), EncodeFields(ys)); }
        (EncodeField(f) + EncodeFields(xs')) + EncodeFields(ys);
        { EncodeFieldsCons(f, xs'); }
        EncodeFields(xs) + EncodeFields(ys);
      }
    }
  }

  lemma {:induction false} EncodeEntriesSnoc(tag: nat, bs: seq<seq<Byte>>, b: seq<Byte>)
    ensures EncodeEntries(tag, bs + [b]) == EncodeEntries(tag, bs) + Varint(tag) + Prefixed(b)
  {
    if bs == [] {
      assert bs + [b] == [b];
    } else {
      EncodeEntriesSnoc(tag, bs[1..], b);
      assert (bs + [b])[1..] == bs[1..] + [b];
    }
  }

  // ---- Reading ----------------------------------------------------------------------------

  /** A buffer does not continue a run of entries with this tag. */
  predicate EndsRun(tag: nat, b: seq<Byte>) {
    b == [] || b[0] != tag
  }

  /** The run of entries with this tag at the front of a buffer. */
  function ReadMore(tag: Byte, b: seq<Byte>): (r: Option<(seq<seq<Byte>>, seq<Byte>)>)
    ensures r.Some? ==> |r.value.1| <= |b| && EndsRun(tag, r.value.1)
    decreases |b|
  {
    if EndsRun(tag, b) then Some(([], b))
    else
      match ReadPrefixed(b[1..])
      case None => None
      case Some((x, rest)) =>
        match ReadMore(tag, rest)
        case None => None
        case Some((xs, rest')) => Some(([x] + xs, rest'))
  }

  /** The entries of a repeated field after its first tag: one entry, then the run after it. */
  function ReadEntries(tag: Byte, b: seq<Byte>): (r: Option<(seq<seq<Byte>>, seq<Byte>)>)
    ensures r.Some? ==> |r.value.1| < |b|
  {
    match ReadPrefixed(b)
    case None => None
    case Some((x, rest)) =>
      match ReadMore(tag, rest)
      case None => None
      case Some((xs, rest')) => Some(([x] + xs, rest'))
  }

  function ReadRaw(k: Kind, num: nat, b: seq<Byte>): (r: Option<(Raw, seq<Byte>)>)
    ensures r.Some? ==> |r.value.1| < |b|
  {
    match k
    case KVarint =>
      (match ReadVarint(b)
       case None => None
       case Some((v, rest)) => if v < TWO_TO_THE_64 then Some((Vint(v), rest)) else None)
    case KWord =>
      (match ReadWord(b)
       case None => None
       case Some((w, rest)) => Some((Fixed(w), rest)))
    case KBytes =>
      (match ReadPrefixed(b)
       case None => None
       case Some((x, rest)) => Some((Blob(x), rest)))
    case KRepeated =>
      if Tag(num, KRepeated) >= 256 then None
      else
        match ReadEntries(Tag(num, KRepeated), b)
        case None => None
        case Some((xs, rest)) => Some((Blobs(xs), rest))
  }

  /** One iteration of a generated reading loop: a tag whose number is at least min and known,
      with the wire type of its field, then the payload. */
  function ReadField(s: Schema, b: seq<Byte>, min: nat): (r: Option<(Field, seq<Byte>)>)
    ensures r.Some? ==> |r.value.1| < |b| && r.value.0.num >= min
  {
    match ReadVarint(b)
    case None => None
    case Some((tag, rest)) =>
      var num := tag / 8;
      if num < min || num !in s || tag % 8 != WireType(s[num]) then None
      else
        match ReadRaw(s[num], num, rest)
        case None => None
        case Some((raw, rest')) => Some((Field(num, raw), rest'))
  }

  /** A buffer starts with this tag, followed by this payload. */
  ghost predicate Tagged(b: seq<Byte>, num: nat, wireType: nat, payload: seq<Byte>) {
    wireType < 8 && ReadVarint(b) == Some((8 * num + wireType, payload))
  }

  function ReadFields(s: Schema, b: seq<Byte>, min: nat): (r: Option<seq<Field>>)
    decreases |b|
  {
    if b == [] then Some([])
    else
      match ReadField(s, b, min)
      case None => None
      case Some((f, rest)) =>
        match ReadFields(s, rest, f.num + 1)
        case None => None
        case Some(fs) => Some([f] + fs)
  }

  // ---- Writing then reading ---------------------------------------------------------------

  lemma EntriesStart(tag: Byte, bs: seq<seq<Byte>>, rest: seq<Byte>)
    requires bs != [] && tag < 128
    ensures EncodeEntries(tag, bs) + rest == [tag] + (Prefixed(bs[0]) + (EncodeEntries(tag, bs[1..]) + rest))
  {
    var t, x, y := [tag], Prefixed(bs[0]), EncodeEntries(tag, bs[1..]);
    assert Varint(tag) == t;
    assert EncodeEntries(tag, bs) == t + x + y;
    ConcatAssociates(t + x, y, rest);
    ConcatAssociates(t, x, y + rest);
  }

  lemma ReadOneMore(tag: Byte, b: seq<Byte>, x: seq<Byte>, rest: seq<Byte>)
    requires ReadPrefixed(b) == Some((x, rest))
    ensures ReadMore(tag, [tag] + b)
         == (match ReadMore(tag, rest)
             case None => None
             case Some((xs, end)) => Some(([x] + xs, end)))
  {
    assert ([tag] + b)[1..] == b;
  }

  lemma {:induction false} MoreReadsBack(tag: Byte, bs: seq<seq<Byte>>, rest: seq<Byte>)
    requires tag < 128 && EndsRun(tag, rest)
    ensures ReadMore(tag, EncodeEntries(tag, bs) + rest) == Some((bs, rest))
  {
    if bs == [] {
      assert [] + rest == rest;
    } else {
      var x, xs := bs[0], bs[1..];
      MoreReadsBack(tag, xs, rest);
      PrefixedReadsBack(x, EncodeEntries(tag, xs) + rest);
      ReadOneMore(tag, Prefixed(x) + (EncodeEntries(tag, xs) + rest), x, EncodeEntries(tag, xs) + rest);
      EntriesStart(tag, bs, rest);
      assert bs == [x] + xs;
    }
  }

  lemma EntriesReadBack(tag: Byte, bs: seq<seq<Byte>>, rest: seq<Byte>)
    requires bs != [] && tag < 128 && EndsRun(tag, rest)
    ensures var b := EncodeEntries(tag, bs) + rest;
            b[0] == tag && ReadEntries(tag, b[1..]) == Some((bs, rest))
  {
    EntriesStart(tag, bs, rest);
    MoreReadsBack(tag, bs, rest);
  }

  /** A field is read back from its tag and whatever reads its payload back. */
  lemma TaggedReadsBack(s: Schema, num: nat, raw: Raw, payload: seq<Byte>, rest: seq<Byte>, min: nat)
    requires SmallSchema(s) && num in s && min <= num
    requires ReadRaw(s[num], num, payload) == Some((raw, rest))
    ensures ReadField(s, Varint(Tag(num, s[num])) + payload, min) == Some((Field(num, raw), rest))
  {
    VarintReadsBack(Tag(num, s[num]), payload);
  }

  lemma FieldReadsBack(s: Schema, f: Field, rest: seq<Byte>, min: nat)
    requires SmallSchema(s) && Conforms(s, [f], min)
    requires f.raw.Blobs? ==> EndsRun(Tag(f.num, KRepeated), rest)
    ensures ReadField(s, EncodeField(f) + rest, min) == Some((f, rest))
  {
    var tag := Tag(f.num, s[f.num]);
    match f.raw {
      case Vint(v) =>
        VarintReadsBack(v, rest);
        TaggedReadsBack(s, f.num, f.raw, Varint(v) + rest, rest, min);
        ConcatAssociates(Varint(tag), Varint(v), rest);
      case Fixed(w) =>
        WordReadsBack(w, rest);
        TaggedReadsBack(s, f.num, f.raw, Word(w) + rest, rest, min);
        ConcatAssociates(Varint(tag), Word(w), rest);
      case Blob(x) =>
        PrefixedReadsBack(x, rest);
        TaggedReadsBack(s, f.num, f.raw, Prefixed(x) + rest, rest, min);
        ConcatAssociates(Varint(tag), Prefixed(x), rest);
      case Blobs(bs) =>
        var b := EncodeEntries(tag, bs) + rest;
        EntriesReadBack(tag, bs, rest);
        TaggedReadsBack(s, f.num, f.raw, b[1..], rest, min);
        assert b == Varint(tag) + b[1..];
    }
  }

  /** The encoding of fields from min on does not start with a smaller tag. */
  lemma EncodingStartsAtMin(s: Schema, fs: seq<Field>, min: nat)
    requires SmallSchema(s) && Conforms(s, fs, min)
    ensures fs == [] ==> EncodeFields(fs) == []
    ensures fs != [] ==> EncodeFields(fs) != [] && EncodeFields(fs)[0] >= 8 * min
  {
    if fs != [] {
      var f := fs[0];
      assert EncodeField(f) != [] && EncodeField(f)[0] == Tag(f.num, s[f.num]);
    }
  }

  lemma FirstField(s: Schema, f: Field, fs: seq<Field>, min: nat)
    requires SmallSchema(s) && Conforms(s, [f] + fs, min)
    ensures Conforms(s, [f], min) && Conforms(s, fs, f.num + 1)
    ensures EncodeField(f) != []
    ensures EndsRun(Tag(f.num, KRepeated), EncodeFields(fs))
  {
    assert ([f] + fs)[1..] == fs;
    EncodingStartsAtMin(s, fs, f.num + 1);
  }

  lemma ReadFieldsCons(s: Schema, b: seq<Byte>, min: nat, f: Field, rest: seq<Byte>, fs: seq<Field>)
    requires b != [] && ReadField(s, b, min) == Some((f, rest))
    requires ReadFields(s, rest, f.num + 1) == Some(fs)
    ensures ReadFields(s, b, min) == Some([f] + fs)
  {
  }

  lemma FirstFieldReadsBack(s: Schema, f: Field, fs: seq<Field>, min: nat)
    requires SmallSchema(s) && Conforms(s, [f] + fs, min)
    requires ReadFields(s, EncodeFields(fs), f.num + 1) == Some(fs)
    ensures ReadFields(s, EncodeField(f) + EncodeFields(fs), min) == Some([f] + fs)
  {
    var rest := EncodeFields(fs);
    FirstField(s, f, fs, min);
    FieldReadsBack(s, f, rest, min);
    ReadFieldsCons(s, EncodeField(f) + rest, min, f, rest, fs);
  }

  lemma {:induction false} FieldsReadBack(s: Schema, fs: seq<Field>, min: nat)
    requires SmallSchema(s) && Conforms(s, fs, min)
    ensures ReadFields(s, EncodeFields(fs), min) == Some(fs)
  {
    if fs != [] {
      var f, fs' := fs[0], fs[1..];
      FieldsReadBack(s, fs', f.num + 1);
      assert fs == [f] + fs';
      FirstFieldReadsBack(s, f, fs', min);
    }
  }

  // ---- Reading then writing ---------------------------------------------------------------

  lemma {:induction false} MoreIsUnique(tag: Byte, b: seq<Byte>)
    requires tag < 128 && ReadMore(tag, b).Some?
    ensures var (bs, rest) := ReadMore(tag, b).value;
            b == EncodeEntries(tag, bs) + rest
    decreases |b|
  {
    var (bs, rest) := ReadMore(tag, b).value;
    if EndsRun(tag, b) {
      assert b == [] + b;
    } else {
      PrefixedIsUnique(b[1..]);
      var (x, rest') := ReadPrefixed(b[1..]).value;
      MoreIsUnique(tag, rest');
      assert bs[1..] == ReadMore(tag, rest').value.0;
      assert b == [tag] + b[1..];
      EntriesStart(tag, bs, rest);
    }
  }

  lemma EntriesAreUnique(tag: Byte, b: seq<Byte>)
    requires tag < 128 && ReadEntries(tag, b).Some?
    ensures var (bs, rest) := ReadEntries(tag, b).value;
            bs != [] && [tag] + b == EncodeEntries(tag, bs) + rest
  {
    PrefixedIsUnique(b);
    var (x, rest') := ReadPrefixed(b).value;
    MoreIsUnique(tag, rest');
    var (bs, rest) := ReadEntries(tag, b).value;
    assert bs[1..] == ReadMore(tag, rest').value.0;
    EntriesStart(tag, bs, rest);
  }

  lemma FieldIsUnique(s: Schema, b: seq<Byte>, min: nat)
    requires SmallSchema(s) && ReadField(s, b, min).Some?
    ensures var (f, rest) := ReadField(s, b, min).value;
            Conforms(s, [f], min) && b == EncodeField(f) + rest
  {
    VarintIsMinimal(b);
    var (tag, payload) := ReadVarint(b).value;
    var (f, rest) := ReadField(s, b, min).value;
    assert tag == Tag(f.num, s[f.num]);
    match s[f.num] {
      case KVarint => VarintIsMinimal(payload);
      case KWord => WordIsUnique(payload);
      case KBytes => PrefixedIsUnique(payload);
      case KRepeated =>
        EntriesAreUnique(tag, payload);
        assert Varint(tag) == [tag];
    }
  }

  lemma {:induction false} FieldsAreUnique(s: Schema, b: seq<Byte>, min: nat)
    requires SmallSchema(s) && ReadFields(s, b, min).Some?
    ensures var fs := ReadFields(s, b, min).value;
            Conforms(s, fs, min) && EncodeFields(fs) == b
    decreases |b|
  {
    if b != [] {
      var (f, rest) := ReadField(s, b, min).value;
      var fs := ReadFields(s, rest, f.num + 1).value;
      FieldsAreUnique(s, rest, f.num + 1);
      FirstFieldIsUnique(s, b, min, f, rest, fs);
    }
  }

  lemma FirstFieldIsUnique(s: Schema, b: seq<Byte>, min: nat, f: Field, rest: seq<Byte>, fs: seq<Field>)
    requires SmallSchema(s) && ReadField(s, b, min) == Some((f, rest))
    requires EncodeFields(fs) == rest && Conforms(s, fs, f.num + 1)
    ensures Conforms(s, [f] + fs, min) && EncodeFields([f] + fs) == b
  {
    FieldIsUnique(s, b, min);
    FieldsStartWith(s, b, min, f, rest, fs);
  }

  lemma FieldsStartWith(s: Schema, b: seq<Byte>, min: nat, f: Field, rest: seq<Byte>, fs: seq<Field>)
    requires b == EncodeField(f) + rest && EncodeFields(fs) == rest
    requires Conforms(s, [f], min) && Conforms(s, fs, f.num + 1)
    ensures Conforms(s, [f] + fs, min) && EncodeFields([f] + fs) == b
  {
    EncodeFieldsCons(f, fs);
    ConformsCons(s, f, fs, min);
  }

  lemma ConformsCons(s: Schema, f: Field, fs: seq<Field>, min: nat)
    requires Conforms(s, [f], min) && Conforms(s, fs, f.num + 1)
    ensures Conforms(s, [f] + fs, min)
  {
    assert ([f] + fs)[1..] == fs;
  }

  // ---- Messages ---------------------------------------------------------------------------

  /** A message type: the payload it prints for each field number (None for a field at its zero
      value), the way a read payload is stored, and the values that reading can produce. */
  datatype Codec<!C> = Codec(
    schema: Schema,
    zero: C,
    part: (C, nat) -> Option<Raw>,
    store: (C, Field) -> Option<C>,
    canonical: C -> bool)

  /** Stores fields into a message one after the other; a field may be refused. */
  function Apply<C>(k: Codec<C>, c: C, fs: seq<Field>): Option<C> {
    if fs == [] then Some(c)
    else
      match k.store(c, fs[0])
      case None => None
      case Some(c') => Apply(k, c', fs[1..])
  }

  /** What a generated reading loop yields when it stands at this buffer with this message. */
  function Continue<C>(k: Codec<C>, c: C, b: seq<Byte>, min: nat): Option<C> {
    match ReadFields(k.schema, b, min)
    case None => None
    case Some(fs) => Apply(k, c, fs)
  }

  function Decode<C>(k: Codec<C>, b: seq<Byte>): Option<C> {
    Continue(k, k.zero, b, 0)
  }

  const LIMIT: nat := 16

  /** The non-zero fields of a message, from field n on. */
  function FieldsFrom<C>(k: Codec<C>, v: C, n: nat): seq<Field>
    decreases LIMIT - n
  {
    if n >= LIMIT then []
    else
      var rest := FieldsFrom(k, v, n + 1);
      match k.part(v, n)
      case None => rest
      case Some(raw) => [Field(n, raw)] + rest
  }

  function Encode<C>(k: Codec<C>, v: C): seq<Byte> {
    EncodeFields(FieldsFrom(k, v, 0))
  }

  /** The body of a generated reading loop after the tag: check the wire type of the field, read
      its payload and store it. */
  function ReadAndStore<C>(k: Codec<C>, c: C, num: nat, wireType: nat, payload: seq<Byte>): (r: Option<(C, seq<Byte>)>)
    ensures r.Some? ==> |r.value.1| < |payload|
  {
    if num !in k.schema || wireType != WireType(k.schema[num]) then None
    else
      match ReadRaw(k.schema[num], num, payload)
      case None => None
      case Some((raw, rest)) =>
        match k.store(c, Field(num, raw))
        case None => None
        case Some(c') => Some((c', rest))
  }

  lemma ContinueEnd<C>(k: Codec<C>, c: C, min: nat)
    ensures Continue(k, c, [], min) == Some(c)
  {
  }

  /** A tag that is unreadable or out of order fails the whole message. */
  lemma ContinueRefused<C>(k: Codec<C>, c: C, b: seq<Byte>, min: nat)
    requires b != []
    requires ReadVarint(b).None? || ReadVarint(b).value.0 / 8 < min
    ensures Continue(k, c, b, min).None?
  {
  }

  /** An iteration of the loop leaves the outcome unchanged. */
  lemma ContinueStep<C>(k: Codec<C>, c: C, b: seq<Byte>, min: nat, num: nat, wireType: nat, payload: seq<Byte>)
    requires b != [] && Tagged(b, num, wireType, payload) && min <= num
    ensures Continue(k, c, b, min) ==
            match ReadAndStore(k, c, num, wireType, payload)
            case None => None
            case Some((c', rest)) => Continue(k, c', rest, num + 1)
  {
    if ReadField(k.schema, b, min).Some? {
      var (f, rest) := ReadField(k.schema, b, min).value;
      if ReadFields(k.schema, rest, num + 1).Some? {
        var fs := ReadFields(k.schema, rest, num + 1).value;
        assert ([f] + fs)[1..] == fs;
      }
    }
  }

  /** What makes printing and storing partners. */
  ghost predicate Lawful<C(!new)>(k: Codec<C>) {
    && SmallSchema(k.schema)
    && k.canonical(k.zero)
    && (forall n: nat :: k.part(k.zero, n) == None)
    && (forall v, n: nat :: k.part(v, n).Some? ==> n in k.schema && HasKind(k.part(v, n).value, k.schema[n]))
    && (forall c, f :: k.canonical(c) && k.store(c, f).Some? ==> Stored(k, c, f, k.store(c, f).value))
    && (forall c, v, n: nat :: k.canonical(v) && k.part(v, n).Some? ==> k.store(c, Field(n, k.part(v, n).value)).Some?)
    && (forall u, v :: k.canonical(u) && k.canonical(v) && SameParts(k, u, v) ==> u == v)
  }

  ghost predicate Stored<C>(k: Codec<C>, c: C, f: Field, c': C) {
    && k.canonical(c')
    && k.part(c', f.num) == Some(f.raw)
    && forall m: nat :: m != f.num ==> k.part(c', m) == k.part(c, m)
  }

  ghost predicate SameParts<C>(k: Codec<C>, u: C, v: C) {
    forall n: nat :: k.part(u, n) == k.part(v, n)
  }

  lemma {:induction false} PrintedFieldsConform<C(!new)>(k: Codec<C>, v: C, n: nat)
    requires Lawful(k)
    ensures Conforms(k.schema, FieldsFrom(k, v, n), n)
    decreases LIMIT - n
  {
    if n < LIMIT {
      PrintedFieldsConform(k, v, n + 1);
      var rest := FieldsFrom(k, v, n + 1);
      if k.part(v, n).Some? {
        assert ([Field(n, k.part(v, n).value)] + rest)[1..] == rest;
      }
    }
  }

  /** Storing the fields of v from n on into a message that already has those below n gives v. */
  lemma {:induction false} StoringRebuilds<C(!new)>(k: Codec<C>, c: C, v: C, n: nat)
    requires Lawful(k) && k.canonical(c) && k.canonical(v)
    requires forall m: nat :: k.part(c, m) == if m < n then k.part(v, m) else None
    ensures Apply(k, c, FieldsFrom(k, v, n)) == Some(v)
    decreases LIMIT - n
  {
    if n >= LIMIT {
      assert SameParts(k, c, v);
    } else if k.part(v, n).None? {
      StoringRebuilds(k, c, v, n + 1);
    } else {
      var f := Field(n, k.part(v, n).value);
      var c' := k.store(c, f).value;
      assert Stored(k, c, f, c');
      StoringRebuilds(k, c', v, n + 1);
      var rest := FieldsFrom(k, v, n + 1);
      assert ([f] + rest)[1..] == rest;
    }
  }

  lemma {:induction false} SkipZeroFields<C>(k: Codec<C>, v: C, n: nat, m: nat)
    requires n <= m <= LIMIT && forall i :: n <= i < m ==> k.part(v, i).None?
    ensures FieldsFrom(k, v, n) == FieldsFrom(k, v, m)
    decreases m - n
  {
    if n < m {
      SkipZeroFields(k, v, n + 1, m);
    }
  }

  /** Stored fields are exactly the fields the resulting message prints. */
  lemma {:induction false} StoredFieldsArePrinted<C(!new)>(k: Codec<C>, c: C, fs: seq<Field>, min: nat)
    requires Lawful(k) && k.canonical(c) && Conforms(k.schema, fs, min)
    requires Apply(k, c, fs).Some? && min <= LIMIT
    requires forall m: nat :: m >= min ==> k.part(c, m).None?
    ensures var v := Apply(k, c, fs).value;
            && k.canonical(v)
            && fs == FieldsFrom(k, v, min)
            && forall m: nat :: m < min ==> k.part(v, m) == k.part(c, m)
  {
    var v := Apply(k, c, fs).value;
    if fs == [] {
      SkipZeroFields(k, v, min, LIMIT);
    } else {
      var f := fs[0];
      var c' := k.store(c, f).value;
      assert Stored(k, c, f, c');
      StoredFieldsArePrinted(k, c', fs[1..], f.num + 1);
      assert k.part(v, f.num) == Some(f.raw);
      SkipZeroFields(k, v, min, f.num);
      assert fs == [f] + fs[1..];
    }
  }

  /** Reading what was written gives the value back. */
  lemma DecodeEncode<C(!new)>(k: Codec<C>, v: C)
    requires Lawful(k) && k.canonical(v)
    ensures Decode(k, Encode(k, v)) == Some(v)
  {
    PrintedFieldsConform(k, v, 0);
    FieldsReadBack(k.schema, FieldsFrom(k, v, 0), 0);
    StoringRebuilds(k, k.zero, v, 0);
  }

  /** A byte string is accepted only as the encoding of the value it yields. */
  lemma EncodeDecode<C(!new)>(k: Codec<C>, b: seq<Byte>)
    requires Lawful(k) && Decode(k, b).Some?
    ensures k.canonical(Decode(k, b).value)
    ensures Encode(k, Decode(k, b).value) == b
  {
    FieldsAreUnique(k.schema, b, 0);
    StoredFieldsArePrinted(k, k.zero, ReadFields(k.schema, b, 0).value, 0);
  }

  /** So reading and writing are mutual inverses: a byte string is read as a value exactly when it is
      what that value is written as. */
  lemma DecodeInvertsEncode<C(!new)>(k: Codec<C>, b: seq<Byte>, v: C)
    requires Lawful(k)
    ensures Decode(k, b) == Some(v) <==> k.canonical(v) && Encode(k, v) == b
  {
    if Decode(k, b) == Some(v) {
      EncodeDecode(k, b);
    }
    if k.canonical(v) {
      DecodeEncode(k, v);
    }
  }

  lemma SamePartsEncodeAlike<C>(k: Codec<C>, u: C, v: C)
    requires SameParts(k, u, v)
    ensures Encode(k, u) == Encode(k, v)
  {
    SameFields(k, u, v, 0);
  }

  lemma {:induction false} SameFields<C>(k: Codec<C>, u: C, v: C, n: nat)
    requires SameParts(k, u, v)
    ensures FieldsFrom(k, u, n) == FieldsFrom(k, v, n)
    decreases LIMIT - n
  {
    if n < LIMIT {
      SameFields(k, u, v, n + 1);
    }
  }

  lemma ZeroEncodesEmpty<C(!new)>(k: Codec<C>)
    requires Lawful(k)
    ensures Encode(k, k.zero) == []
  {
    SkipZeroFields(k, k.zero, 0, LIMIT);
  }

  lemma EncodeInjective<C(!new)>(k: Codec<C>, u: C, v: C)
    requires Lawful(k) && k.canonical(u) && k.canonical(v) && Encode(k, u) == Encode(k, v)
    ensures u == v
  {
    DecodeEncode(k, u);
    DecodeEncode(k, v);
  }

  // ---- Writing field by field -------------------------------------------------------------

  function EncodePart<C>(k: Codec<C>, v: C, n: nat): seq<Byte> {
    match k.part(v, n)
    case None => []
    case Some(raw) => EncodeField(Field(n, raw))
  }

  function EncodeFrom<C>(k: Codec<C>, v: C, n: nat): seq<Byte> {
    EncodeFields(FieldsFrom(k, v, n))
  }

  lemma EncodeStep<C>(k: Codec<C>, v: C, n: nat)
    requires n < LIMIT
    ensures EncodeFrom(k, v, n) == EncodePart(k, v, n) + EncodeFrom(k, v, n + 1)
  {
    var rest := FieldsFrom(k, v, n + 1);
    match k.part(v, n)
    case None => assert [] + EncodeFields(rest) == EncodeFields(rest);
    case Some(raw) =>
      assert FieldsFrom(k, v, n) == [Field(n, raw)] + rest;
      EncodeFieldsCons(Field(n, raw), rest);
  }

  /** The bytes of the fields numbered 1 to n. */
  function PartsTo<C>(k: Codec<C>, v: C, n: nat): seq<Byte> {
    if n == 0 then [] else PartsTo(k, v, n - 1) + EncodePart(k, v, n)
  }

  lemma {:induction false} EncodeSplits<C(!new)>(k: Codec<C>, v: C, n: nat)
    requires Lawful(k) && n < LIMIT
    ensures Encode(k, v) == PartsTo(k, v, n) + EncodeFrom(k, v, n + 1)
  {
    EncodeStep(k, v, n);
    if n == 0 {
      assert EncodePart(k, v, 0) == [];
    } else {
      EncodeSplits(k, v, n - 1);
      ConcatAssociates(PartsTo(k, v, n - 1), EncodePart(k, v, n), EncodeFrom(k, v, n + 1));
    }
  }

  /** A message is encoded once its last field is written. */
  lemma EncodeIsParts<C(!new)>(k: Codec<C>, v: C, last: nat)
    requires Lawful(k) && last < LIMIT && forall m: nat :: m in k.schema ==> m <= last
    ensures Encode(k, v) == PartsTo(k, v, last)
  {
    EncodeSplits(k, v, last);
    SkipZeroFields(k, v, last + 1, LIMIT);
    assert EncodeFrom(k, v, last + 1) == [];
  }

  lemma Encode3<C(!new)>(k: Codec<C>, v: C, before: seq<Byte>)
    requires Lawful(k) && forall m: nat :: m in k.schema ==> m <= 3
    ensures before + EncodePart(k, v, 1) + EncodePart(k, v, 2) + EncodePart(k, v, 3) == before + Encode(k, v)
  {
    EncodeIsParts(k, v, 3);
    WrittenIsParts(k, v, 3, before);
    assert Written(k, v, 1, before) == before + EncodePart(k, v, 1);
  }

  /** A buffer after the fields numbered 1 to n were appended to it. */
  function Written<C>(k: Codec<C>, v: C, n: nat, before: seq<Byte>): seq<Byte> {
    if n == 0 then before else Written(k, v, n - 1, before) + EncodePart(k, v, n)
  }

  lemma {:induction false} WrittenIsParts<C>(k: Codec<C>, v: C, n: nat, before: seq<Byte>)
    ensures Written(k, v, n, before) == before + PartsTo(k, v, n)
  {
    if n == 0 {
      assert before + [] == before;
    } else {
      WrittenIsParts(k, v, n - 1, before);
      ConcatAssociates(before, PartsTo(k, v, n - 1), EncodePart(k, v, n));
    }
  }

  lemma Encode5<C(!new)>(k: Codec<C>, v: C, before: seq<Byte>)
    requires Lawful(k) && forall m: nat :: m in k.schema ==> m <= 5
    ensures before + EncodePart(k, v, 1) + EncodePart(k, v, 2) + EncodePart(k, v, 3)
            + EncodePart(k, v, 4) + EncodePart(k, v, 5) == before + Encode(k, v)
  {
    EncodeIsParts(k, v, 5);
    WrittenIsParts(k, v, 5, before);
    assert Written(k, v, 1, before) == before + EncodePart(k, v, 1);
    assert Written(k, v, 2, before) == before + EncodePart(k, v, 1) + EncodePart(k, v, 2);
    assert Written(k, v, 3, before) == Written(k, v, 2, before) + EncodePart(k, v, 3);
    assert Written(k, v, 4, before) == Written(k, v, 2, before) + EncodePart(k, v, 3) + EncodePart(k, v, 4);
  }

  lemma Encode6<C(!new)>(k: Codec<C>, v: C, before: seq<Byte>)
    requires Lawful(k) && forall m: nat :: m in k.schema ==> m <= 6
    ensures before + EncodePart(k, v, 1) + EncodePart(k, v, 2) + EncodePart(k, v, 3)
            + EncodePart(k, v, 4) + EncodePart(k, v, 5) + EncodePart(k, v, 6) == before + Encode(k, v)
  {
    EncodeIsParts(k, v, 6);
    WrittenIsParts(k, v, 6, before);
    assert Written(k, v, 1, before) == before + EncodePart(k, v, 1);
    assert Written(k, v, 2, before) == before + EncodePart(k, v, 1) + EncodePart(k, v, 2);
    assert Written(k, v, 3, before) == Written(k, v, 2, before) + EncodePart(k, v, 3);
    assert Written(k, v, 4, before) == Written(k, v, 2, before) + EncodePart(k, v, 3) + EncodePart(k, v, 4);
  }

  /** Two messages that differ only in their third field: the encoding of the one that leaves it
      at zero is a prefix of the encoding of the other. */
  lemma ThirdPartIsSuffix<C(!new)>(k: Codec<C>, u: C, v: C)
    requires Lawful(k) && forall m: nat :: m in k.schema ==> m <= 3
    requires k.part(u, 1) == k.part(v, 1) && k.part(u, 2) == k.part(v, 2) && k.part(u, 3) == None
    ensures Encode(k, v) == Encode(k, u) + EncodePart(k, v, 3)
  {
    EncodeIsParts(k, u, 3);
    EncodeIsParts(k, v, 3);
    PartsAgree(k, u, v, 2);
    var a, b := PartsTo(k, v, 2), EncodePart(k, v, 3);
    assert PartsTo(k, v, 3) == a + b;
    assert PartsTo(k, u, 3) == a + [];
    assert a + [] == a;
  }

  lemma {:induction false} PartsAgree<C>(k: Codec<C>, u: C, v: C, n: nat)
    requires forall i :: 1 <= i <= n ==> k.part(u, i) == k.part(v, i)
    ensures PartsTo(k, u, n) == PartsTo(k, v, n)
  {
    if n > 0 {
      PartsAgree(k, u, v, n - 1);
    }
  }

  // ---- Repeated messages ------------------------------------------------------------------

  /** The entries of a repeated message field; a nil entry is printed as empty bytes. */
  function EncodeEach<E>(enc: E -> seq<Byte>, xs: seq<Option<E>>): (bs: seq<seq<Byte>>)
    ensures |bs| == |xs|
  {
    if xs == [] then []
    else [if xs[0].None? then [] else enc(xs[0].value)] + EncodeEach(enc, xs[1..])
  }

  /** Empty bytes are read as a nil entry, without looking inside. */
  function DecodeEach<E>(dec: seq<Byte> -> Option<E>, bs: seq<seq<Byte>>): (r: Option<seq<Option<E>>>)
    ensures r.Some? ==> |r.value| == |bs|
  {
    if bs == [] then Some([])
    else
      match DecodeEach(dec, bs[1..])
      case None => None
      case Some(rest) =>
        if bs[0] == [] then Some([None] + rest)
        else
          match dec(bs[0])
          case None => None
          case Some(e) => Some([Some(e)] + rest)
  }

  ghost predicate ReadsOnlyItsPrint<E(!new)>(enc: E -> seq<Byte>, dec: seq<Byte> -> Option<E>) {
    forall b :: dec(b).Some? ==> enc(dec(b).value) == b
  }

  /** The entries a reader can produce. */
  ghost predicate Readable<E>(enc: E -> seq<Byte>, dec: seq<Byte> -> Option<E>, x: Option<E>) {
    x.Some? ==> enc(x.value) != [] && dec(enc(x.value)) == Some(x.value)
  }

  function EncodeEntry<E>(enc: E -> seq<Byte>, x: Option<E>): seq<Byte> {
    match x
    case None => []
    case Some(e) => enc(e)
  }

  function DecodeEntry<E>(dec: seq<Byte> -> Option<E>, b: seq<Byte>): Option<Option<E>> {
    if b == [] then Some(None)
    else
      match dec(b)
      case None => None
      case Some(e) => Some(Some(e))
  }

  lemma {:induction false} EncodeEachSnoc<E>(enc: E -> seq<Byte>, xs: seq<Option<E>>, x: Option<E>)
    ensures EncodeEach(enc, xs + [x]) == EncodeEach(enc, xs) + [EncodeEntry(enc, x)]
  {
    if xs == [] {
      assert xs + [x] == [x];
    } else {
      EncodeEachSnoc(enc, xs[1..], x);
      assert (xs + [x])[1..] == xs[1..] + [x];
    }
  }

  /** The bytes of the first entries of a repeated message field. */
  function EntriesTo<E>(num: nat, enc: E -> seq<Byte>, xs: seq<Option<E>>, i: nat): seq<Byte>
    requires i <= |xs|
  {
    EncodeEntries(8 * num + LEN, EncodeEach(enc, xs[..i]))
  }

  lemma EntriesToStep<E>(num: nat, enc: E -> seq<Byte>, xs: seq<Option<E>>, i: nat)
    requires i < |xs| && num < LIMIT
    ensures EntriesTo(num, enc, xs, i + 1) ==
            EntriesTo(num, enc, xs, i) + EncodeField(Field(num, Blob(EncodeEntry(enc, xs[i]))))
  {
    var done, entry, tag := EncodeEach(enc, xs[..i]), EncodeEntry(enc, xs[i]), 8 * num + LEN;
    assert xs[..i + 1] == xs[..i] + [xs[i]];
    EncodeEachSnoc(enc, xs[..i], xs[i]);
    EncodeEntriesSnoc(tag, done, entry);
    BlobField(num, entry);
    ConcatAssociates(EncodeEntries(tag, done), Varint(tag), Prefixed(entry));
  }

  lemma EntriesToAll<E>(num: nat, enc: E -> seq<Byte>, xs: seq<Option<E>>)
    ensures EntriesTo(num, enc, xs, |xs|) == EncodeField(Field(num, Blobs(EncodeEach(enc, xs))))
  {
    assert xs[..|xs|] == xs;
    BlobsField(num, EncodeEach(enc, xs));
  }

  lemma BlobsField(num: nat, bs: seq<seq<Byte>>)
    ensures EncodeField(Field(num, Blobs(bs))) == EncodeEntries(8 * num + LEN, bs)
  {
  }

  /** Decoding entries behind the ones already decoded. */
  ghost function DecodeOnto<E>(dec: seq<Byte> -> Option<E>, bs: seq<seq<Byte>>, done: seq<Option<E>>): Option<seq<Option<E>>> {
    match DecodeEach(dec, bs)
    case None => None
    case Some(xs) => Some(done + xs)
  }

  lemma DecodeOntoStep<E>(dec: seq<Byte> -> Option<E>, bs: seq<seq<Byte>>, i: nat, done: seq<Option<E>>)
    requires i < |bs|
    ensures DecodeOnto(dec, bs[i..], done)
         == (match DecodeEntry(dec, bs[i])
             case None => None
             case Some(x) => DecodeOnto(dec, bs[i + 1..], done + [x]))
  {
    var rest := bs[i..];
    assert rest[0] == bs[i] && rest[1..] == bs[i + 1..];
    match (DecodeEntry(dec, bs[i]), DecodeEach(dec, rest[1..]))
    case (Some(x), Some(xs)) => assert done + ([x] + xs) == (done + [x]) + xs;
    case _ =>
  }

  lemma DecodeOntoEnds<E>(dec: seq<Byte> -> Option<E>, bs: seq<seq<Byte>>, done: seq<Option<E>>)
    ensures DecodeOnto(dec, bs[|bs|..], done) == Some(done)
    ensures DecodeOnto(dec, bs[0..], []) == DecodeEach(dec, bs)
  {
    assert bs[|bs|..] == [] && done + [] == done;
    assert bs[0..] == bs;
    match DecodeEach(dec, bs)
    case None =>
    case Some(xs) => assert [] + xs == xs;
  }

  lemma {:induction false} DecodeEncodeEach<E>(enc: E -> seq<Byte>, dec: seq<Byte> -> Option<E>, xs: seq<Option<E>>)
    requires forall x <- xs :: Readable(enc, dec, x)
    ensures DecodeEach(dec, EncodeEach(enc, xs)) == Some(xs)
  {
    if xs != [] {
      DecodeEncodeEach(enc, dec, xs[1..]);
      assert EncodeEach(enc, xs)[1..] == EncodeEach(enc, xs[1..]);
      assert Readable(enc, dec, xs[0]);
      assert xs == [xs[0]] + xs[1..];
    }
  }

  lemma {:induction false} EncodeDecodeEach<E(!new)>(enc: E -> seq<Byte>, dec: seq<Byte> -> Option<E>, bs: seq<seq<Byte>>)
    requires ReadsOnlyItsPrint(enc, dec) && DecodeEach(dec, bs).Some?
    ensures EncodeEach(enc, DecodeEach(dec, bs).value) == bs
    ensures forall x <- DecodeEach(dec, bs).value :: Readable(enc, dec, x)
  {
    if bs != [] {
      EncodeDecodeEach(enc, dec, bs[1..]);
      var xs := DecodeEach(dec, bs).value;
      assert xs == [xs[0]] + DecodeEach(dec, bs[1..]).value;
      assert xs[1..] == DecodeEach(dec, bs[1..]).value;
      assert bs == [bs[0]] + bs[1..];
      assert Readable(enc, dec, xs[0]);
    }
  }

  // ---- The buffers ------------------------------------------------------------------------

  /** A reader consumes its buffer from the front; a failed read leaves it anywhere. */
  class Reader {
    var b: seq<Byte>

    constructor (b: seq<Byte>)
      ensures this.b == b
    {
      this.b := b;
    }

    method ReadTag() returns (ok: bool, num: nat, wireType: nat)
      modifies this
      ensures ok == ReadVarint(old(b)).Some?
      ensures ok ==> Tagged(old(b), num, wireType, b)
    {
      match ReadVarint(b) {
        case None => ok, num, wireType := false, 0, 0;
        case Some((tag, rest)) =>
          ok, num, wireType := true, tag / 8, tag % 8;
          b := rest;
      }
    }

    method ReadUint() returns (ok: bool, v: U64)
      modifies this
      ensures ok == (ReadVarint(old(b)).Some? && ReadVarint(old(b)).value.0 < TWO_TO_THE_64)
      ensures ok ==> ReadVarint(old(b)) == Some((v, b))
    {
      match ReadVarint(b) {
        case None => ok, v := false, 0;
        case Some((n, rest)) =>
          ok, v := n < TWO_TO_THE_64, if n < TWO_TO_THE_64 then n else 0;
          b := rest;
      }
    }

    method ReadFint64() returns (ok: bool, w: U64)
      modifies this
      ensures ok == ReadWord(old(b)).Some?
      ensures ok ==> ReadWord(old(b)) == Some((w, b))
    {
      match ReadWord(b) {
        case None => ok, w := false, 0;
        case Some((v, rest)) =>
          ok, w := true, v;
          b := rest;
      }
    }

    method ReadBytes() returns (ok: bool, x: seq<Byte>)
      modifies this
      ensures ok == ReadPrefixed(old(b)).Some?
      ensures ok ==> ReadPrefixed(old(b)) == Some((x, b))
    {
      match ReadPrefixed(b) {
        case None => ok, x := false, [];
        case Some((y, rest)) =>
          ok, x := true, y;
          b := rest;
      }
    }

    /** A byte array of known length: the length prefix must match before the bytes are taken. */
    method ReadFixedBytes(expected: nat) returns (ok: bool, x: seq<Byte>)
      requires expected < TWO_TO_THE_64
      modifies this
      ensures ok == (ReadPrefixed(old(b)).Some? && |ReadPrefixed(old(b)).value.0| == expected)
      ensures ok ==> ReadPrefixed(old(b)) == Some((x, b))
    {
      var length;
      ok, length := ReadUint();
      if !ok || length != expected || expected > |b| {
        return false, [];
      }
      x := b[..expected];
      b := b[expected..];
    }

    /** The entries of a repeated field whose first tag is already stripped: skip the first entry,
        count the entries that directly follow it, then read them all into a slice of that size. */
    method ReadRepeated(tag: Byte) returns (ok: bool, xs: seq<seq<Byte>>)
      modifies this
      ensures ok == ReadEntries(tag, old(b)).Some?
      ensures ok ==> ReadEntries(tag, old(b)) == Some((xs, b))
    {
      var remaining := b;
      var skipped;
      ok, skipped := ReadBytes();
      if !ok {
        return false, [];
      }
      var countMinus1;
      ok, countMinus1 := CountBytes(tag, b);
      if !ok {
        return false, [];
      }
      ghost var (entries, end) := ReadEntries(tag, remaining).value;
      b := remaining;
      var x;
      ok, x := ReadBytes();
      xs := [x];
      for i := 0 to countMinus1
        invariant ReadMore(tag, b).Some? && |ReadMore(tag, b).value.0| == countMinus1 - i
        invariant xs + ReadMore(tag, b).value.0 == entries && ReadMore(tag, b).value.1 == end
      {
        ghost var before := ReadMore(tag, b).value.0;
        b := b[1..];
        ok, x := ReadBytes();
        assert before == [x] + ReadMore(tag, b).value.0;
        xs := xs + [x];
      }
      assert ReadMore(tag, b).value.0 == [] && xs == entries && b == end;
      ok := true;
    }
  }

  /** Counts the entries with this tag at the front of a buffer. */
  method CountBytes(tag: Byte, bytes: seq<Byte>) returns (ok: bool, count: nat)
    ensures ok == ReadMore(tag, bytes).Some?
    ensures ok ==> count == |ReadMore(tag, bytes).value.0|
  {
    var b := bytes;
    count := 0;
    while !EndsRun(tag, b)
      invariant ReadMore(tag, bytes).Some? == ReadMore(tag, b).Some?
      invariant ReadMore(tag, b).Some? ==>
                  |ReadMore(tag, bytes).value.0| == count + |ReadMore(tag, b).value.0|
      decreases |b|
    {
      match ReadPrefixed(b[1..]) {
        case None => return false, 0;
        case Some((_, rest)) =>
          count := count + 1;
          b := rest;
      }
    }
    ok := true;
  }

  // The bytes of the fields whose tag is one byte.

  function TagByte(num: nat, wireType: nat): seq<Byte>
    requires num < LIMIT && wireType < 8
  {
    [8 * num + wireType]
  }

  lemma VintField(num: nat, v: U64)
    requires num < LIMIT
    ensures EncodeField(Field(num, Vint(v))) == TagByte(num, VARINT) + Varint(v)
  {
  }

  lemma FixedField(num: nat, w: U64)
    requires num < LIMIT
    ensures EncodeField(Field(num, Fixed(w))) == TagByte(num, FIXED64) + Word(w)
  {
  }

  lemma BlobField(num: nat, x: seq<Byte>)
    requires num < LIMIT
    ensures EncodeField(Field(num, Blob(x))) == TagByte(num, LEN) + Prefixed(x)
  {
  }

  lemma NestedField(before: seq<Byte>, num: nat, x: seq<Byte>)
    requires num < LIMIT
    ensures before + (TagByte(num, LEN) + Varint(|x|)) + x == before + EncodeField(Field(num, Blob(x)))
  {
    BlobField(num, x);
    ConcatAssociates(TagByte(num, LEN), Varint(|x|), x);
    ConcatAssociates(before, TagByte(num, LEN) + Varint(|x|), x);
  }

  /** The size of a repeated field: the sum over its entries. */
  method SizeRepeated(num: nat, xs: seq<seq<Byte>>) returns (size: nat)
    requires num < LIMIT
    ensures size == |EncodeField(Field(num, Blobs(xs)))|
  {
    size := 0;
    var tag := 8 * num + LEN;
    for i := 0 to |xs|
      invariant size == |EncodeEntries(tag, xs[..i])|
    {
      size := size + |TagByte(num, LEN)| + SizeBytes(xs[i]);
      EncodeEntriesSnoc(tag, xs[..i], xs[i]);
      assert xs[..i + 1] == xs[..i] + [xs[i]];
    }
    assert xs[..|xs|] == xs;
  }

  /** A writer only appends. */
  class Writer {
    var b: seq<Byte>

    constructor ()
      ensures b == []
    {
      b := [];
    }

    method Append(x: seq<Byte>)
      modifies this
      ensures b == old(b) + x
    {
      b := b + x;
    }

    method AppendUint(num: nat, v: U64)
      requires num < LIMIT
      modifies this
      ensures b == old(b) + EncodeField(Field(num, Vint(v)))
    {
      VintField(num, v);
      ConcatAssociates(b, TagByte(num, VARINT), Varint(v));
      Append(TagByte(num, VARINT));
      Append(Varint(v));
    }

    method AppendFint64(num: nat, w: U64)
      requires num < LIMIT
      modifies this
      ensures b == old(b) + EncodeField(Field(num, Fixed(w)))
    {
      FixedField(num, w);
      ConcatAssociates(b, TagByte(num, FIXED64), Word(w));
      Append(TagByte(num, FIXED64));
      Append(Word(w));
    }

    method AppendBytes(num: nat, x: seq<Byte>)
      requires num < LIMIT
      modifies this
      ensures b == old(b) + EncodeField(Field(num, Blob(x)))
    {
      BlobField(num, x);
      ConcatAssociates(b, TagByte(num, LEN), Prefixed(x));
      Append(TagByte(num, LEN));
      Append(Prefixed(x));
    }

    /** The tag and length of a nested message, whose bytes the caller appends next. */
    method AppendHeader(num: nat, size: nat)
      requires num < LIMIT
      modifies this
      ensures b == old(b) + (TagByte(num, LEN) + Varint(size))
    {
      Append(TagByte(num, LEN));
      Append(Varint(size));
      ConcatAssociates(old(b), TagByte(num, LEN), Varint(size));
    }

    method AppendRepeated(num: nat, xs: seq<seq<Byte>>)
      requires num < LIMIT
      modifies this
      ensures b == old(b) + EncodeField(Field(num, Blobs(xs)))
    {
      var tag := 8 * num + LEN;
      for i := 0 to |xs|
        invariant b == old(b) + EncodeEntries(tag, xs[..i])
      {
        BlobField(num, xs[i]);
        EncodeEntriesSnoc(tag, xs[..i], xs[i]);
        assert xs[..i + 1] == xs[..i] + [xs[i]];
        ConcatAssociates(old(b), EncodeEntries(tag, xs[..i]), EncodeField(Field(num, Blob(xs[i]))));
        AppendBytes(num, xs[i]);
      }
      assert xs[..|xs|] == xs;
    }
  }
}
