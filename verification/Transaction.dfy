/** Signed transactions: built from a base, actions and an auth, or parsed back from bytes. The
    signed message is never parsed: it is what remains once the auth field is cut off. */
module Transaction {
  import opened Bytes
  import opened Canoto
  import opened TxMessages
  import WireBytes

  /** The application's action and auth types, their byte forms, and the hash of the chain. */
  datatype Parser<!Action, !Auth> = Parser(
    parseAction: seq<Byte> -> Option<Action>,
    parseAuth: seq<Byte> -> Option<Auth>,
    actionBytes: Action -> seq<Byte>,
    authBytes: Auth -> seq<Byte>,
    toId: seq<Byte> -> Id)

  /** Printing inverts parsing, both ways. */
  ghost predicate Faithful<Action(!new), Auth(!new)>(p: Parser<Action, Auth>) {
    && (forall a :: p.parseAction(p.actionBytes(a)) == Some(a))
    && (forall b :: p.parseAction(b).Some? ==> p.actionBytes(p.parseAction(b).value) == b)
    && (forall a :: p.parseAuth(p.authBytes(a)) == Some(a))
    && (forall b :: p.parseAuth(b).Some? ==> p.authBytes(p.parseAuth(b).value) == b)
  }

  datatype Tx<Action, Auth> = Tx(
    base: Base, actions: seq<Action>, auth: Auth,
    unsignedBytes: seq<Byte>, bytes: seq<Byte>, size: nat, id: Id)

  function AllBytes<Action, Auth>(p: Parser<Action, Auth>, actions: seq<Action>): (bs: seq<seq<Byte>>)
    ensures |bs| == |actions|
  {
    if actions == [] then [] else [p.actionBytes(actions[0])] + AllBytes(p, actions[1..])
  }

  function ParseActions<Action, Auth>(p: Parser<Action, Auth>, bs: seq<seq<Byte>>): Option<seq<Action>> {
    if bs == [] then Some([])
    else
      match p.parseAction(bs[0])
      case None => None
      case Some(a) =>
        match ParseActions(p, bs[1..])
        case None => None
        case Some(rest) => Some([a] + rest)
  }

  /** The message a signer signs: the transaction printed without an auth. */
  function UnsignedBytes<Action, Auth>(p: Parser<Action, Auth>, base: Base, actions: seq<Action>): seq<Byte> {
    Encode(SerializeTxCodec(), SerializeTx(base, AllBytes(p, actions), []))
  }

  function SignedBytes<Action, Auth>(p: Parser<Action, Auth>, base: Base, actions: seq<Action>, auth: Auth): seq<Byte> {
    Encode(SerializeTxCodec(), SerializeTx(base, AllBytes(p, actions), p.authBytes(auth)))
  }

  function BuiltTx<Action, Auth>(p: Parser<Action, Auth>, base: Base, actions: seq<Action>, auth: Auth): Tx<Action, Auth> {
    var bytes := SignedBytes(p, base, actions, auth);
    Tx(base, actions, auth, UnsignedBytes(p, base, actions), bytes, |bytes|, p.toId(bytes))
  }

  /** What parsing promises: the unsigned bytes are the encoding without the auth. */
  function ParsedTx<Action, Auth>(p: Parser<Action, Auth>, bytes: seq<Byte>): Option<Tx<Action, Auth>> {
    match Decode(SerializeTxCodec(), bytes)
    case None => None
    case Some(s) =>
      match ParseActions(p, s.actions)
      case None => None
      case Some(actions) =>
        match p.parseAuth(s.auth)
        case None => None
        case Some(auth) =>
          Some(Tx(s.base, actions, auth, Encode(SerializeTxCodec(), s.(auth := [])), bytes, |bytes|, p.toId(bytes)))
  }

  /** The auth field is a suffix of the encoding, and what precedes it is the encoding without. */
  lemma AuthIsSuffix(s: SerializeTx)
    requires s.auth != []
    ensures Encode(SerializeTxCodec(), s) ==
            Encode(SerializeTxCodec(), s.(auth := [])) + EncodePart(SerializeTxCodec(), s, TX_AUTH)
  {
    TxLawful();
    ThirdPartIsSuffix(SerializeTxCodec(), s.(auth := []), s);
  }

  method ActionBytes<Action, Auth>(p: Parser<Action, Auth>, actions: seq<Action>) returns (bs: seq<seq<Byte>>)
    ensures bs == AllBytes(p, actions)
  {
    bs := [];
    for i := 0 to |actions|
      invariant bs + AllBytes(p, actions[i..]) == AllBytes(p, actions)
    {
      bs := bs + [p.actionBytes(actions[i])];
      assert actions[i..][1..] == actions[i + 1..];
    }
  }

  method NewTxData<Action, Auth>(p: Parser<Action, Auth>, base: Base, actions: seq<Action>) returns (unsignedBytes: seq<Byte>)
    ensures unsignedBytes == UnsignedBytes(p, base, actions)
  {
    var actionBytes := ActionBytes(p, actions);
    var w := new Writer();
    MarshalSerializeTxInto(w, SerializeTx(base, actionBytes, []));
    unsignedBytes := w.b;
  }

  method NewTransaction<Action, Auth>(p: Parser<Action, Auth>, base: Base, actions: seq<Action>, auth: Auth)
    returns (tx: Tx<Action, Auth>)
    ensures tx == BuiltTx(p, base, actions, auth)
  {
    var unsignedBytes := NewTxData(p, base, actions);
    var actionBytes := ActionBytes(p, actions);
    var w := new Writer();
    MarshalSerializeTxInto(w, SerializeTx(base, actionBytes, p.authBytes(auth)));
    tx := Tx(base, actions, auth, unsignedBytes, w.b, |w.b|, p.toId(w.b));
  }

  method ParseAllActions<Action, Auth>(p: Parser<Action, Auth>, bs: seq<seq<Byte>>) returns (res: Option<seq<Action>>)
    ensures res == ParseActions(p, bs)
  {
    var actions := [];
    assert bs[0..] == bs;
    assert forall rest: seq<Action> :: [] + rest == rest;
    for i := 0 to |bs|
      invariant ParseActions(p, bs).Some? == ParseActions(p, bs[i..]).Some?
      invariant ParseActions(p, bs).Some? ==>
                  ParseActions(p, bs).value == actions + ParseActions(p, bs[i..]).value
    {
      var parsed := p.parseAction(bs[i]);
      if parsed.None? {
        return None;
      }
      assert bs[i..][1..] == bs[i + 1..];
      if ParseActions(p, bs[i + 1..]).Some? {
        var rest := ParseActions(p, bs[i + 1..]).value;
        assert actions + ([parsed.value] + rest) == (actions + [parsed.value]) + rest;
      }
      actions := actions + [parsed.value];
    }
    assert actions + [] == actions;
    res := Some(actions);
  }

  /** The bytes before the auth suffix; the defensive bounds check never fires. */
  method CutAuth(bytes: seq<Byte>, s: SerializeTx) returns (unsignedBytes: seq<Byte>)
    requires bytes == Encode(SerializeTxCodec(), s)
    ensures unsignedBytes == Encode(SerializeTxCodec(), s.(auth := []))
  {
    unsignedBytes := bytes;
    if s.auth != [] {
      AuthIsSuffix(s);
      TxActionsPart(s);
      BlobField(TX_AUTH, s.auth);
      var authSuffixSize := |TagByte(TX_AUTH, LEN)| + SizeBytes(s.auth);
      var limit := |bytes| - authSuffixSize;
      assert 0 <= limit <= |bytes|;
      unsignedBytes := bytes[..limit];
    } else {
      assert s.(auth := []) == s;
    }
  }

  method UnmarshalTx<Action, Auth>(p: Parser<Action, Auth>, bytes: seq<Byte>) returns (res: Option<Tx<Action, Auth>>)
    ensures res == ParsedTx(p, bytes)
  {
    var decoded := UnmarshalSerializeTx(bytes);
    if decoded.None? {
      return None;
    }
    var s := decoded.value;
    var actions := ParseAllActions(p, s.actions);
    if actions.None? {
      return None;
    }
    var auth := p.parseAuth(s.auth);
    if auth.None? {
      return None;
    }
    TxLawful();
    EncodeDecode(SerializeTxCodec(), bytes);
    var unsignedBytes := CutAuth(bytes, s);
    res := Some(Tx(s.base, actions.value, auth.value, unsignedBytes, bytes, |bytes|, p.toId(bytes)));
  }

  lemma {:induction false} ParsedActionsPrint<Action(!new), Auth(!new)>(p: Parser<Action, Auth>, bs: seq<seq<Byte>>)
    requires Faithful(p) && ParseActions(p, bs).Some?
    ensures AllBytes(p, ParseActions(p, bs).value) == bs
  {
    if bs != [] {
      ParsedActionsPrint(p, bs[1..]);
      var actions := ParseActions(p, bs).value;
      assert actions[1..] == ParseActions(p, bs[1..]).value;
    }
  }

  lemma {:induction false} PrintedActionsParse<Action(!new), Auth(!new)>(p: Parser<Action, Auth>, actions: seq<Action>)
    requires Faithful(p)
    ensures ParseActions(p, AllBytes(p, actions)) == Some(actions)
  {
    if actions != [] {
      PrintedActionsParse(p, actions[1..]);
      var bs := AllBytes(p, actions);
      assert bs[0] == p.actionBytes(actions[0]) && bs[1..] == AllBytes(p, actions[1..]);
      assert actions == [actions[0]] + actions[1..];
    }
  }

  /** Every accepted transaction is the one its parts build: in particular its unsigned bytes are
      exactly what the signer signed. */
  lemma AcceptedTxIsBuilt<Action(!new), Auth(!new)>(p: Parser<Action, Auth>, bytes: seq<Byte>)
    requires Faithful(p) && ParsedTx(p, bytes).Some?
    ensures var tx := ParsedTx(p, bytes).value;
            && tx == BuiltTx(p, tx.base, tx.actions, tx.auth)
            && tx.bytes == bytes
  {
    var s := Decode(SerializeTxCodec(), bytes).value;
    TxLawful();
    EncodeDecode(SerializeTxCodec(), bytes);
    ParsedActionsPrint(p, s.actions);
  }

  /** A built transaction survives the wire whole: id, size and unsigned bytes included. */
  lemma BuiltTxIsAccepted<Action(!new), Auth(!new)>(p: Parser<Action, Auth>, base: Base, actions: seq<Action>, auth: Auth)
    requires Faithful(p)
    ensures ParsedTx(p, BuiltTx(p, base, actions, auth).bytes) == Some(BuiltTx(p, base, actions, auth))
  {
    var s := SerializeTx(base, AllBytes(p, actions), p.authBytes(auth));
    TxLawful();
    DecodeEncode(SerializeTxCodec(), s);
    PrintedActionsParse(p, actions);
  }

  /** The bytes of a built transaction: those that were signed, and the auth behind its tag and length. */
  lemma BuiltTxLayout<Action, Auth>(p: Parser<Action, Auth>, base: Base, actions: seq<Action>, auth: Auth)
    ensures var tx := BuiltTx(p, base, actions, auth);
            var entries := seq(|actions|, i requires 0 <= i < |actions| => p.actionBytes(actions[i]));
            && tx.unsignedBytes == SerializeTxBytes(SerializeTx(base, entries, []))
            && tx.bytes == SerializeTxBytes(SerializeTx(base, entries, p.authBytes(auth)))
            && tx.bytes == tx.unsignedBytes + WireBytes.CountedField(0x1a, p.authBytes(auth))
            && tx.size == |tx.bytes| && tx.id == p.toId(tx.bytes)
            && tx.base == base && tx.actions == actions && tx.auth == auth
  {
    var entries := AllBytes(p, actions);
    AllBytesAre(p, actions);
    SerializeTxLayout(SerializeTx(base, entries, []));
    SerializeTxLayout(SerializeTx(base, entries, p.authBytes(auth)));
    AuthIsLast(SerializeTx(base, entries, p.authBytes(auth)));
    hide Encode, SerializeTxBytes;
  }

  lemma AuthIsLast(s: SerializeTx)
    ensures SerializeTxBytes(s) == SerializeTxBytes(s.(auth := [])) + WireBytes.CountedField(0x1a, s.auth)
  {
    hide BaseBytes, WireBytes.Entries;
  }

  lemma {:induction false} AllBytesAre<Action, Auth>(p: Parser<Action, Auth>, actions: seq<Action>)
    ensures AllBytes(p, actions) == seq(|actions|, i requires 0 <= i < |actions| => p.actionBytes(actions[i]))
  {
    if actions != [] {
      AllBytesAre(p, actions[1..]);
    }
  }

  /** Bytes are accepted exactly when they are those of a base, entries that all parse as actions, and an auth
      that parses. */
  lemma ParsedTxAnswers<Action(!new), Auth(!new)>(p: Parser<Action, Auth>, bytes: seq<Byte>)
    ensures ParsedTx(p, bytes).Some? <==> exists s :: bytes == SerializeTxBytes(s) && PartsParse(p, s)
  {
    SerializeTxReads(bytes);
    match Decode(SerializeTxCodec(), bytes) {
      case None =>
      case Some(s) =>
        ParseActionsAnswers(p, s.actions);
        forall t | bytes == SerializeTxBytes(t) ensures t == s {
          assert Decode(SerializeTxCodec(), bytes) == Some(t);
        }
    }
  }

  ghost predicate PartsParse<Action(!new), Auth(!new)>(p: Parser<Action, Auth>, s: SerializeTx) {
    && (forall i :: 0 <= i < |s.actions| ==> p.parseAction(s.actions[i]).Some?)
    && p.parseAuth(s.auth).Some?
  }

  lemma {:induction false} ParseActionsAnswers<Action(!new), Auth(!new)>(p: Parser<Action, Auth>, bs: seq<seq<Byte>>)
    ensures ParseActions(p, bs).Some? <==> forall i :: 0 <= i < |bs| ==> p.parseAction(bs[i]).Some?
  {
    if bs != [] {
      ParseActionsAnswers(p, bs[1..]);
      assert forall i :: 0 < i < |bs| ==> bs[i] == bs[1..][i - 1];
    }
  }

  /** Two accepted byte strings with the same content are the same byte string: transactions
      are not malleable. */
  lemma AcceptedBytesAreUnique<Action(!new), Auth(!new)>(p: Parser<Action, Auth>, b1: seq<Byte>, b2: seq<Byte>)
    requires Faithful(p) && ParsedTx(p, b1).Some? && ParsedTx(p, b2).Some?
    requires var t1, t2 := ParsedTx(p, b1).value, ParsedTx(p, b2).value;
             t1.base == t2.base && t1.actions == t2.actions && t1.auth == t2.auth
    ensures b1 == b2
  {
    AcceptedTxIsBuilt(p, b1);
    AcceptedTxIsBuilt(p, b2);
  }
}
