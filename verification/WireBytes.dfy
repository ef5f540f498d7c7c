/** What numbers, words, counted bytes and fields look like as bytes, in plain arithmetic and with the
    tags spelled out. */
module WireBytes {
  import opened Bytes
  import opened Canoto

  /** A word as eight bytes, the low one first. */
  function EightBytes(w: U64): seq<Byte> {
    [w % 0x100,
     w / 0x100 % 0x100,
     w / 0x1_0000 % 0x100,
     w / 0x100_0000 % 0x100,
     w / 0x1_0000_0000 % 0x100,
     w / 0x100_0000_0000 % 0x100,
     w / 0x1_0000_0000_0000 % 0x100,
     w / 0x100_0000_0000_0000]
  }

  function FourBytes(v: nat): seq<Byte> {
    [v % 0x100, v / 0x100 % 0x100, v / 0x1_0000 % 0x100, v / 0x100_0000 % 0x100]
  }

  lemma WordBytes(w: U64)
    ensures Word(w) == EightBytes(w)
  {
    hide LittleEndian, EightBytes, FourBytes;
    var high := w / 0x1_0000_0000;
    LittleEndianBy4(w, 4);
    LittleEndianBy4(high, 0);
    NothingLeft(high / 0x1_0000_0000);
    EightIsTwiceFour(w);
    assert FourBytes(high) + [] == FourBytes(high);
  }

  lemma NothingLeft(v: nat)
    ensures LittleEndian(v, 0) == []
  {
  }

  lemma EightIsTwiceFour(w: U64)
    ensures EightBytes(w) == FourBytes(w) + FourBytes(w / 0x1_0000_0000)
  {
    HighQuotients(w);
  }

  lemma HighQuotients(w: U64)
    ensures w / 0x1_0000_0000 / 0x100 == w / 0x100_0000_0000
    ensures w / 0x1_0000_0000 / 0x1_0000 == w / 0x1_0000_0000_0000
    ensures w / 0x1_0000_0000 / 0x100_0000 == w / 0x100_0000_0000_0000 < 0x100
  {
  }

  lemma LittleEndianBy4(v: nat, n: nat)
    ensures LittleEndian(v, 4 + n) == FourBytes(v) + LittleEndian(v / 0x1_0000_0000, n)
  {
    var v1 := v / 0x100;
    var v2 := v1 / 0x100;
    var v3 := v2 / 0x100;
    assert v2 == v / 0x1_0000 && v3 == v / 0x100_0000 && v3 / 0x100 == v / 0x1_0000_0000;
    assert FourBytes(v) == [v % 0x100, v1 % 0x100, v2 % 0x100, v3 % 0x100];
    OneByte(v, 3 + n);
    OneByte(v1, 2 + n);
    OneByte(v2, 1 + n);
    OneByte(v3, n);
  }

  lemma OneByte(v: nat, n: nat)
    ensures LittleEndian(v, 1 + n) == [v % 0x100] + LittleEndian(v / 0x100, n)
  {
  }

  // ---- Varints -------------------------------------------------------------------------------

  /** The number whose digits in base 128 are the low seven bits of the bytes, the low digit first. */
  function Digits(b: seq<Byte>): nat {
    if b == [] then 0 else b[0] % 128 + 128 * Digits(b[1..])
  }

  /** A varint: every byte but the last has its high bit set, and no digit is superfluous. */
  ghost predicate IsVarint(b: seq<Byte>, v: nat) {
    && b != []
    && (forall i :: 0 <= i < |b| - 1 ==> b[i] >= 0x80)
    && b[|b| - 1] < 0x80
    && (|b| > 1 ==> b[|b| - 1] != 0)
    && Digits(b) == v
  }

  lemma {:induction false} VarintBytes(v: nat)
    ensures IsVarint(Varint(v), v)
  {
    if v >= 128 {
      VarintBytes(v / 128);
      var b := Varint(v);
      assert b[1..] == Varint(v / 128);
      assert forall i :: 0 <= i < |b| - 1 ==> b[i] == if i == 0 then 128 + v % 128 else Varint(v / 128)[i - 1];
    }
  }

  lemma VarintExamples()
    ensures Varint(0) == [0x00] && Varint(127) == [0x7f] && Varint(128) == [0x80, 0x01] && Varint(300) == [0xac, 0x02]
  {
  }

  /** Signed numbers go 0, -1, 1, -2, 2 and so on. */
  lemma ZigZagBytes(v: I64)
    ensures v >= 0 ==> ZigZag(v) == v + v
    ensures v < 0 ==> ZigZag(v) as int + 1 == -2 * (v as int)
    ensures ZigZag(0) == 0 && ZigZag(-1) == 1 && ZigZag(1) == 2 && ZigZag(-2) == 3
    ensures ZigZag(0x7fff_ffff_ffff_ffff) == 0xffff_ffff_ffff_fffe
    ensures ZigZag(-0x8000_0000_0000_0000) == 0xffff_ffff_ffff_ffff
  {
  }

  /** Two's complement. */
  lemma SignedWordBytes()
    ensures ToWord(-1) == 0xffff_ffff_ffff_ffff
    ensures ToWord(-0x8000_0000_0000_0000) == 0x8000_0000_0000_0000
    ensures ToWord(0x7fff_ffff_ffff_ffff) == 0x7fff_ffff_ffff_ffff
    ensures EightBytes(1) == [0x01, 0x00, 0x00, 0x00, 0x00, 0x00, 0x00, 0x00]
  {
  }

  // ---- Entries -------------------------------------------------------------------------------

  /** Bytes behind their length. */
  function Counted(x: seq<Byte>): seq<Byte> {
    Varint(|x|) + x
  }

  /** Entries one after the other, each a tag and its counted bytes. */
  function Entries(tag: Byte, xs: seq<seq<Byte>>): seq<Byte> {
    if xs == [] then [] else [tag] + Counted(xs[0]) + Entries(tag, xs[1..])
  }

  /** A field of counted bytes, absent when there are none. */
  function CountedField(tag: Byte, x: seq<Byte>): seq<Byte> {
    if x == [] then [] else [tag] + Counted(x)
  }

  /** A field of thirty-two bytes, absent when they are all zero. */
  function IdField(tag: Byte, id: Id): seq<Byte> {
    if AllZero(id) then [] else [tag, 0x20] + id
  }

  predicate AllZero(id: Id) {
    forall i :: 0 <= i < 32 ==> id[i] == 0
  }

  /** A field of one word, absent when it is zero. */
  function WordField(tag: Byte, w: U64): seq<Byte> {
    if w == 0 then [] else [tag] + EightBytes(w)
  }

  lemma {:induction false} ZerosAt(n: nat)
    ensures forall i :: 0 <= i < n ==> Zeros(n)[i] == 0
  {
    if n > 0 {
      ZerosAt(n - 1);
    }
  }

  /** The empty ID is the one of zero bytes. */
  lemma EmptyIdIsZero(id: Id)
    ensures id == EmptyId <==> AllZero(id)
  {
    ZerosAt(32);
    if AllZero(id) {
      assert id == EmptyId;
    }
  }

  // ---- Fields --------------------------------------------------------------------------------

  /** The tags of a field: eight times its number, and one more for a word or two more for bytes. */
  lemma FieldBytes(num: nat)
    requires 0 < num < 16
    ensures forall v: U64 :: EncodeField(Field(num, Vint(v))) == [8 * num] + Varint(v)
    ensures forall w: U64 :: EncodeField(Field(num, Fixed(w))) == [8 * num + 1] + EightBytes(w)
    ensures forall b :: EncodeField(Field(num, Blob(b))) == [8 * num + 2] + Counted(b)
    ensures forall bs :: EncodeField(Field(num, Blobs(bs))) == Entries(8 * num + 2, bs)
  {
    forall w: U64 ensures EncodeField(Field(num, Fixed(w))) == [8 * num + 1] + EightBytes(w) {
      WordBytes(w);
    }
    forall bs ensures EncodeField(Field(num, Blobs(bs))) == Entries(8 * num + 2, bs) {
      EntriesBytes(8 * num + 2, bs);
    }
  }

  lemma {:induction false} EntriesBytes(tag: Byte, bs: seq<seq<Byte>>)
    requires tag < 128
    ensures EncodeEntries(tag, bs) == Entries(tag, bs)
  {
    if bs != [] {
      EntriesBytes(tag, bs[1..]);
    }
  }

  /** A field of thirty-two counted bytes. */
  lemma IdFieldBytes(tag: Byte, id: Id)
    ensures IdField(tag, id) == if id == EmptyId then [] else [tag] + Counted(id)
  {
    hide AllZero, Zeros;
    EmptyIdIsZero(id);
    assert Varint(32) == [0x20];
  }

  /** What an entry for each element holds: nothing for a nil one. */
  function EntryEach<E>(enc: E -> seq<Byte>, xs: seq<Option<E>>): (bs: seq<seq<Byte>>)
  {
    seq(|xs|, i requires 0 <= i < |xs| => match xs[i] case None => [] case Some(x) => enc(x))
  }

  lemma {:induction false} EntryEachBytes<E>(enc: E -> seq<Byte>, xs: seq<Option<E>>)
    ensures EncodeEach(enc, xs) == EntryEach(enc, xs)
  {
    if xs != [] {
      EntryEachBytes(enc, xs[1..]);
      assert EntryEach(enc, xs)[1..] == EntryEach(enc, xs[1..]);
    }
  }
}
