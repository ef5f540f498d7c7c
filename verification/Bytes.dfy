/** Bytes, machine words and the primitive readers and writers of the wire format.
    Readers are functions from a buffer to a value and the bytes that remain. */
module Bytes {

  datatype Option<+T> = None | Some(value: T)

  /** A sequence with the element at one position taken out. */
  function Without<T>(xs: seq<T>, p: nat): seq<T>
    requires p < |xs|
  {
    xs[..p] + xs[p + 1..]
  }

  lemma WithoutOne<T>(xs: seq<T>, p: nat)
    requires p < |xs|
    ensures multiset(xs) == multiset(Without(xs, p)) + multiset{xs[p]}
    ensures multiset(Without(xs, p)) == multiset(xs) - multiset{xs[p]}
    ensures forall x :: x in xs && x != xs[p] ==> x in Without(xs, p)
    ensures forall x :: x in Without(xs, p) ==> x in xs
  {
    assert xs == xs[..p] + [xs[p]] + xs[p + 1..];
  }

  lemma WithoutAt<T>(xs: seq<T>, p: nat)
    requires p < |xs|
    ensures |Without(xs, p)| == |xs| - 1
    ensures forall k :: 0 <= k < |xs| - 1 ==> Without(xs, p)[k] == if k < p then xs[k] else xs[k + 1]
    ensures forall k :: 0 <= k < |xs| && k != p ==> xs[k] == Without(xs, p)[if k < p then k else k - 1]
  {
  }

  type Byte = x: nat | x < 256

  const TWO_TO_THE_63 := 0x8000_0000_0000_0000
  const TWO_TO_THE_64 := 0x1_0000_0000_0000_0000

  type U64 = x: nat | x < TWO_TO_THE_64
  type I64 = x: int | -TWO_TO_THE_63 <= x < TWO_TO_THE_63

  const ID_LEN := 32

  function Zeros(n: nat): (b: seq<Byte>)
    ensures |b| == n
  {
    if n == 0 then [] else [0] + Zeros(n - 1)
  }

  /** A hash: thirty-two bytes. */
  type Id = b: seq<Byte> | |b| == ID_LEN witness Zeros(ID_LEN)

  const EmptyId: Id := Zeros(ID_LEN)

  // ---- Base-128 varints -------------------------------------------------------------------

  function Varint(v: nat): (b: seq<Byte>)
    ensures b != []
  {
    if v < 128 then [v] else [128 + v % 128] + Varint(v / 128)
  }

  /** Reads a minimal varint. A multi-byte varint whose last digit is zero is padded and refused. */
  function ReadVarint(b: seq<Byte>): (r: Option<(nat, seq<Byte>)>)
    ensures r.Some? ==> |r.value.1| < |b|
  {
    if b == [] then None
    else if b[0] < 128 then Some((b[0], b[1..]))
    else
      match ReadVarint(b[1..])
      case None => None
      case Some((high, rest)) =>
        if high == 0 then None else Some((b[0] - 128 + 128 * high, rest))
  }

  lemma {:induction false} VarintReadsBack(v: nat, rest: seq<Byte>)
    ensures ReadVarint(Varint(v) + rest) == Some((v, rest))
  {
    var b := Varint(v) + rest;
    if v < 128 {
      assert b[1..] == rest;
    } else {
      assert b[1..] == Varint(v / 128) + rest;
      VarintReadsBack(v / 128, rest);
    }
  }

  lemma {:induction false} VarintIsMinimal(b: seq<Byte>)
    requires ReadVarint(b).Some?
    ensures b == Varint(ReadVarint(b).value.0) + ReadVarint(b).value.1
  {
    if b[0] >= 128 {
      VarintIsMinimal(b[1..]);
      var (high, rest) := ReadVarint(b[1..]).value;
      var v := b[0] - 128 + 128 * high;
      assert v / 128 == high && v % 128 == b[0] - 128;
      assert b == [b[0]] + b[1..];
    }
  }

  /** The number of bytes of a varint. */
  function SizeUint(v: nat): (n: nat)
    ensures n == |Varint(v)|
  {
    if v < 128 then 1 else 1 + SizeUint(v / 128)
  }

  // ---- Signed integers --------------------------------------------------------------------

  /** Signed integers alternate between non-negative and negative on the wire (section
      "Signed Integers" of the Protocol Buffers encoding specification). */
  function ZigZag(v: I64): (w: U64)
    ensures w == 0 <==> v == 0
  {
    if v >= 0 then 2 * v else -2 * v - 1
  }

  function UnZigZag(w: U64): (v: I64)
    ensures ZigZag(v) == w
  {
    if w % 2 == 0 then w / 2 else -((w + 1) / 2)
  }

  /** Two's complement. */
  function ToWord(v: I64): (w: U64)
    ensures w == 0 <==> v == 0
  {
    if v >= 0 then v else v + TWO_TO_THE_64
  }

  function FromWord(w: U64): (v: I64)
    ensures ToWord(v) == w
  {
    if w < TWO_TO_THE_63 then w else w - TWO_TO_THE_64
  }

  // ---- Fixed-width little-endian words ----------------------------------------------------

  function Pow256(n: nat): nat {
    if n == 0 then 1 else 256 * Pow256(n - 1)
  }

  function LittleEndian(v: nat, n: nat): (b: seq<Byte>)
    ensures |b| == n
  {
    if n == 0 then [] else [v % 256] + LittleEndian(v / 256, n - 1)
  }

  function FromLittleEndian(b: seq<Byte>): nat {
    if b == [] then 0 else b[0] + 256 * FromLittleEndian(b[1..])
  }

  lemma {:induction false} LittleEndianReadsBack(v: nat, n: nat)
    requires v < Pow256(n)
    ensures FromLittleEndian(LittleEndian(v, n)) == v
  {
    if n > 0 {
      LittleEndianReadsBack(v / 256, n - 1);
      assert LittleEndian(v, n)[1..] == LittleEndian(v / 256, n - 1);
    }
  }

  lemma {:induction false} LittleEndianIsUnique(b: seq<Byte>)
    ensures FromLittleEndian(b) < Pow256(|b|)
    ensures LittleEndian(FromLittleEndian(b), |b|) == b
  {
    if b != [] {
      LittleEndianIsUnique(b[1..]);
      var v := FromLittleEndian(b);
      assert v / 256 == FromLittleEndian(b[1..]) && v % 256 == b[0];
    }
  }

  lemma Pow256Of8()
    ensures Pow256(8) == TWO_TO_THE_64
  {
    assert Pow256(4) == 0x1_0000_0000 by {
      assert Pow256(2) == 0x1_0000;
    }
    assert Pow256(6) == 0x1_0000_0000_0000;
  }

  const WORD_LEN := 8

  function Word(w: U64): (b: seq<Byte>)
    ensures |b| == WORD_LEN
  {
    LittleEndian(w, WORD_LEN)
  }

  function ReadWord(b: seq<Byte>): (r: Option<(U64, seq<Byte>)>)
    ensures r.Some? ==> |r.value.1| < |b|
  {
    if |b| < WORD_LEN then None
    else
      LittleEndianIsUnique(b[..WORD_LEN]);
      Pow256Of8();
      Some((FromLittleEndian(b[..WORD_LEN]), b[WORD_LEN..]))
  }

  lemma WordReadsBack(w: U64, rest: seq<Byte>)
    ensures ReadWord(Word(w) + rest) == Some((w, rest))
  {
    var b := Word(w) + rest;
    assert b[..WORD_LEN] == Word(w) && b[WORD_LEN..] == rest;
    Pow256Of8();
    LittleEndianReadsBack(w, WORD_LEN);
  }

  lemma WordIsUnique(b: seq<Byte>)
    requires ReadWord(b).Some?
    ensures b == Word(ReadWord(b).value.0) + ReadWord(b).value.1
  {
    LittleEndianIsUnique(b[..WORD_LEN]);
  }

  // ---- Length-prefixed bytes --------------------------------------------------------------

  function Prefixed(x: seq<Byte>): seq<Byte> {
    Varint(|x|) + x
  }

  function SizeBytes(x: seq<Byte>): (n: nat)
    ensures n == |Prefixed(x)|
  {
    SizeUint(|x|) + |x|
  }

  /** A length that overflows 64 bits exceeds every buffer, so the overflow error of the reader
      and its end-of-input error refuse the same inputs. */
  function ReadPrefixed(b: seq<Byte>): (r: Option<(seq<Byte>, seq<Byte>)>)
    ensures r.Some? ==> |r.value.1| < |b|
  {
    match ReadVarint(b)
    case None => None
    case Some((n, rest)) =>
      if n > |rest| then None else Some((rest[..n], rest[n..]))
  }

  lemma PrefixedReadsBack(x: seq<Byte>, rest: seq<Byte>)
    ensures ReadPrefixed(Prefixed(x) + rest) == Some((x, rest))
  {
    assert Prefixed(x) + rest == Varint(|x|) + (x + rest);
    VarintReadsBack(|x|, x + rest);
    assert (x + rest)[..|x|] == x && (x + rest)[|x|..] == rest;
  }

  lemma PrefixedIsUnique(b: seq<Byte>)
    requires ReadPrefixed(b).Some?
    ensures b == Prefixed(ReadPrefixed(b).value.0) + ReadPrefixed(b).value.1
  {
    hide ReadVarint, Varint;
    VarintIsMinimal(b);
    var (n, rest) := ReadVarint(b).value;
    assert rest == rest[..n] + rest[n..];
  }
}
