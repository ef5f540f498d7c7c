/** State keys with permissions, and the units a transaction is charged for them. */
module StateKeys {
  import opened Bytes

  type Key = seq<Byte>

  /** One bit for each right: reading, allocating, writing. */
  type Permissions = bv8

  /** Whether permissions include all the required ones. */
  predicate Includes(p: Permissions, require: Permissions) {
    require & !p == 0
  }

  type Keys = map<Key, Permissions>

  /** A key ends in two bytes that say how many chunks its value can have. */
  predicate Valid(key: Key) {
    |key| >= 2
  }

  function MaxChunks(key: Key): (n: nat)
    requires Valid(key)
    ensures n < 65536
  {
    256 * key[|key| - 2] as nat + key[|key| - 1] as nat
  }

  /** Keys.Add: unions the permissions; a malformed key cannot be added. */
  function Add(keys: Keys, key: Key, p: Permissions): Option<Keys> {
    if !Valid(key) then None
    else Some(keys[key := (if key in keys then keys[key] else 0) | p])
  }

  /** Keys.Has. */
  predicate Has(keys: Keys, key: Key, p: Permissions) {
    Includes(if key in keys then keys[key] else 0, p)
  }

  function AddAll(keys: Keys, declared: seq<(Key, Permissions)>): Option<Keys> {
    if declared == [] then Some(keys)
    else
      var last := declared[|declared| - 1];
      match AddAll(keys, declared[..|declared| - 1])
      case None => None
      case Some(before) => Add(before, last.0, last.1)
  }

  function Flatten<T>(lists: seq<seq<T>>): seq<T> {
    if lists == [] then [] else Flatten(lists[..|lists| - 1]) + lists[|lists| - 1]
  }

  lemma {:induction false} AddAllConcat(keys: Keys, a: seq<(Key, Permissions)>, b: seq<(Key, Permissions)>)
    ensures AddAll(keys, a + b) == (match AddAll(keys, a) case None => None case Some(mid) => AddAll(mid, b))
    decreases |b|
  {
    if b == [] {
      assert a + b == a;
    } else {
      assert (a + b)[..|a + b| - 1] == a + b[..|b| - 1];
      AddAllConcat(keys, a, b[..|b| - 1]);
    }
  }

  /** Adding the keys of one map, in whatever order it is ranged over. */
  method AddKeys(keys: Keys, declared: seq<(Key, Permissions)>) returns (r: Option<Keys>)
    ensures r == AddAll(keys, declared)
  {
    var stateKeys, i := keys, 0;
    assert declared[..0] == [];
    while i < |declared|
      invariant i <= |declared| && AddAll(keys, declared[..i]) == Some(stateKeys)
    {
      assert declared[..i + 1][..i] == declared[..i];
      var added := Add(stateKeys, declared[i].0, declared[i].1);
      if added.None? {
        AddAllFails(keys, declared, i + 1);
        return None;
      }
      stateKeys := added.value;
      i := i + 1;
    }
    assert declared[..i] == declared;
    r := Some(stateKeys);
  }

  lemma AddAllFails(keys: Keys, declared: seq<(Key, Permissions)>, n: nat)
    requires n <= |declared| && AddAll(keys, declared[..n]) == None
    ensures AddAll(keys, declared) == None
  {
    assert declared == declared[..n] + declared[n..];
    AddAllConcat(keys, declared[..n], declared[n..]);
  }

  /** Transaction.StateKeys: the union over the actions and the sponsor. None when a key is malformed. */
  method StateKeysOf(actions: seq<seq<(Key, Permissions)>>, sponsor: seq<(Key, Permissions)>) returns (r: Option<Keys>)
    ensures r == AddAll(map[], Flatten(actions) + sponsor)
  {
    var stateKeys: Keys, i := map[], 0;
    assert Flatten(actions[..0]) == [];
    while i < |actions|
      invariant i <= |actions| && AddAll(map[], Flatten(actions[..i])) == Some(stateKeys)
    {
      assert actions[..i + 1][..i] == actions[..i];
      AddAllConcat(map[], Flatten(actions[..i]), actions[i]);
      var added := AddKeys(stateKeys, actions[i]);
      if added.None? {
        FlattenFails(actions, sponsor, i + 1);
        return None;
      }
      stateKeys := added.value;
      i := i + 1;
    }
    assert actions[..i] == actions;
    AddAllConcat(map[], Flatten(actions), sponsor);
    r := AddKeys(stateKeys, sponsor);
  }

  lemma {:induction false} FlattenPrefix<T>(lists: seq<seq<T>>, n: nat)
    requires n <= |lists|
    ensures Flatten(lists[..n]) <= Flatten(lists)
    decreases |lists|
  {
    if n < |lists| {
      assert lists[..|lists| - 1][..n] == lists[..n];
      FlattenPrefix(lists[..|lists| - 1], n);
    } else {
      assert lists[..n] == lists;
    }
  }

  lemma FlattenFails(actions: seq<seq<(Key, Permissions)>>, sponsor: seq<(Key, Permissions)>, n: nat)
    requires n <= |actions| && AddAll(map[], Flatten(actions[..n])) == None
    ensures AddAll(map[], Flatten(actions) + sponsor) == None
  {
    FlattenPrefix(actions, n);
    var all, m := Flatten(actions) + sponsor, |Flatten(actions[..n])|;
    assert all[..m] == Flatten(actions[..n]);
    AddAllFails(map[], all, m);
  }

  /** A transaction has a right on a key exactly when some action, or the sponsor, declared it. */
  lemma {:induction false} RightsAreDeclared(declared: seq<(Key, Permissions)>, key: Key, right: Permissions)
    requires AddAll(map[], declared).Some? && right in {1, 2, 4}
    ensures var keys := AddAll(map[], declared).value;
            && (key in keys ==> Valid(key))
            && (key in keys <==> exists i :: 0 <= i < |declared| && declared[i].0 == key)
            && (Has(keys, key, right) <==>
                  exists i :: 0 <= i < |declared| && declared[i].0 == key && Includes(declared[i].1, right))
    decreases |declared|
  {
    if declared != [] {
      var n := |declared| - 1;
      var init := declared[..n];
      RightsAreDeclared(init, key, right);
      var before := AddAll(map[], init).value;
      var was := if key in before then before[key] else 0;
      UnionIncludes(was, declared[n].1, right);
      if i :| 0 <= i < |declared| && declared[i].0 == key && Includes(declared[i].1, right) {
        if i < n {
          assert init[i] == declared[i];
        }
      }
      if i :| 0 <= i < |declared| && declared[i].0 == key {
        if i < n {
          assert init[i] == declared[i];
        }
      }
      if i :| 0 <= i < |init| && init[i].0 == key && Includes(init[i].1, right) {
        assert declared[i] == init[i];
      }
      if i :| 0 <= i < |init| && init[i].0 == key {
        assert declared[i] == init[i];
      }
    }
  }

  lemma UnionIncludes(p: Permissions, q: Permissions, right: Permissions)
    requires right in {1, 2, 4}
    ensures Includes(p | q, right) <==> Includes(p, right) || Includes(q, right)
    ensures !Includes(0, right)
  {
  }

  /** Taking up keys fails exactly when one of them is too short to say how many chunks it has. */
  lemma {:induction false} AddAllAnswers(declared: seq<(Key, Permissions)>)
    ensures AddAll(map[], declared).Some? <==> forall i :: 0 <= i < |declared| ==> |declared[i].0| >= 2
  {
    if declared != [] {
      var init := declared[..|declared| - 1];
      AddAllAnswers(init);
      assert forall i :: 0 <= i < |init| ==> init[i] == declared[i];
    }
  }

  /** Permissions include others when these add nothing to them, and a key that is not there includes none. */
  lemma HasMeans(keys: Keys, key: Key, p: Permissions)
    ensures Has(keys, key, p) <==> if key in keys then keys[key] | p == keys[key] else p == 0
  {
  }

  lemma ChunksAreTheLastBytes(prefix: seq<Byte>, high: Byte, low: Byte)
    ensures Valid(prefix + [high, low]) && MaxChunks(prefix + [high, low]) == high as nat * 0x100 + low as nat
  {
  }
}
