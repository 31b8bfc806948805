/** The keys a client keeps for a server: the current one, and a history of those it replaced. */
module ServerKeys {
  import opened Octets
  import opened Wrappers

  /** Base64 and JSON lists of strings: what is printed reads back, and only nothing prints as nothing. */
  datatype Codec = Codec(
    b64: Bytes -> string, unb64: string -> Bytes,
    json: seq<string> -> string, parse: string -> seq<string>)
  {
    ghost predicate Lawful() {
      && (forall b :: unb64(b64(b)) == b && (b64(b) == "" <==> b == []))
      && (forall l :: parse(json(l)) == l && json(l) != "")
    }
  }

  /** Authenticated decryption; a wrong key never opens a box. */
  datatype Aead = Aead(seal: (Bytes, Bytes, Bytes) -> Bytes, open: (Bytes, Bytes, Bytes) -> Option<Bytes>) {
    ghost predicate Lawful() {
      && (forall k, n, p :: open(k, n, seal(k, n, p)) == Some(p))
      && (forall k, l, n, p :: k != l ==> open(l, n, seal(k, n, p)) == None)
    }
  }

  function KeyName(id: string): string {
    "e2e_server_" + id
  }

  function HistoryName(id: string): string {
    "e2e_server_history_" + id
  }

  type Storage = map<string, string>

  /** A lookup that takes a missing and an empty entry alike. */
  function Present(s: Storage, name: string): Option<string> {
    if name in s && s[name] != "" then Some(s[name]) else None
  }

  function History(c: Codec, s: Storage, id: string): seq<string> {
    match Present(s, HistoryName(id))
    case None => []
    case Some(text) => c.parse(text)
  }

  function Decoded(c: Codec, l: seq<string>): (bs: seq<Bytes>)
    ensures |bs| == |l|
  {
    seq(|l|, i requires 0 <= i < |l| => c.unb64(l[i]))
  }

  /** Every key of a server, the current one first. */
  function AllKeys(c: Codec, s: Storage, id: string): seq<Bytes> {
    var current := Present(s, KeyName(id));
    (if current.None? then [] else [c.unb64(current.value)]) + Decoded(c, History(c, s, id))
  }

  function Saved(c: Codec, s: Storage, id: string, key: Bytes): Storage {
    var oldKey := Present(s, KeyName(id));
    var kept := if oldKey.None? then s else s[HistoryName(id) := c.json(History(c, s, id) + [oldKey.value])];
    kept[KeyName(id) := c.b64(key)]
  }

  function Removed(s: Storage, id: string): Storage {
    s - {KeyName(id), HistoryName(id)}
  }

  function FirstOpened(a: Aead, keys: seq<Bytes>, nonce: Bytes, ct: Bytes): Option<Bytes> {
    if keys == [] then None
    else if a.open(keys[0], nonce, ct).Some? then a.open(keys[0], nonce, ct)
    else FirstOpened(a, keys[1..], nonce, ct)
  }

  class KeyStore {
    const codec: Codec
    var storage: Storage

    constructor (codec: Codec)
      ensures this.codec == codec && storage == map[]
    {
      this.codec := codec;
      storage := map[];
    }

    method SaveServerKey(id: string, key: Bytes)
      modifies this
      ensures storage == Saved(codec, old(storage), id, key)
    {
      var oldKey := Present(storage, KeyName(id));
      if oldKey.Some? {
        var history := History(codec, storage, id);
        history := history + [oldKey.value];
        storage := storage[HistoryName(id) := codec.json(history)];
      }
      storage := storage[KeyName(id) := codec.b64(key)];
    }

    method RemoveServerKey(id: string)
      modifies this
      ensures storage == Removed(old(storage), id)
    {
      storage := storage - {KeyName(id)};
      storage := storage - {HistoryName(id)};
    }

    method GetAllServerKeys(id: string) returns (keys: seq<Bytes>)
      ensures keys == AllKeys(codec, storage, id)
    {
      keys := [];
      var current := Present(storage, KeyName(id));
      if current.Some? {
        keys := [codec.unb64(current.value)];
      }
      var history := History(codec, storage, id);
      ghost var first := keys;
      for i := 0 to |history|
        invariant keys == first + Decoded(codec, history)[..i]
      {
        keys := keys + [codec.unb64(history[i])];
      }
    }

    method DecryptWithAnyServerKey(a: Aead, nonce: Bytes, ct: Bytes, id: string) returns (r: Option<Bytes>)
      ensures r == FirstOpened(a, AllKeys(codec, storage, id), nonce, ct)
    {
      var keys := GetAllServerKeys(id);
      for i := 0 to |keys|
        invariant FirstOpened(a, keys, nonce, ct) == FirstOpened(a, keys[i..], nonce, ct)
      {
        var dec := a.open(keys[i], nonce, ct);
        if dec.Some? {
          return dec;
        }
      }
      return None;
    }
  }

  // ----- Whole runs -----

  datatype Op = Save(id: string, key: Bytes) | Remove(id: string)

  function Run(c: Codec, s: Storage, ops: seq<Op>): Storage {
    if ops == [] then s
    else
      var before := Run(c, s, ops[..|ops| - 1]);
      match ops[|ops| - 1]
      case Save(id, key) => Saved(c, before, id, key)
      case Remove(id) => Removed(before, id)
  }

  /** The keys saved for `id` since its last removal, oldest first. */
  function KeysSaved(ops: seq<Op>, id: string): seq<Bytes> {
    if ops == [] then []
    else
      var before := KeysSaved(ops[..|ops| - 1], id);
      var op := ops[|ops| - 1];
      if op.id != id then before else if op.Remove? then [] else before + [op.key]
  }

  /** No server's key is stored under the name of another one's history. */
  predicate Separate(ids: set<string>) {
    forall a, b :: a in ids && b in ids ==> a != "history_" + b
  }

  /** Operations on these servers only, each with a key to save. */
  ghost predicate Concern(ops: seq<Op>, ids: set<string>) {
    forall op :: op in ops ==> op.id in ids && (op.Save? ==> op.key != [])
  }

  ghost predicate Ordinary(ops: seq<Op>, ids: set<string>) {
    Separate(ids) && Concern(ops, ids)
  }

  lemma NamesDiffer(a: string, b: string)
    ensures KeyName(a) == KeyName(b) <==> a == b
    ensures HistoryName(a) == HistoryName(b) <==> a == b
    ensures KeyName(a) == HistoryName(b) <==> a == "history_" + b
  {
    assert forall x: string :: KeyName(x)[|"e2e_server_"|..] == x;
    assert forall x: string :: HistoryName(x)[|"e2e_server_history_"|..] == x;
    assert HistoryName(b) == KeyName("history_" + b) by {
      assert "e2e_server_history_" == "e2e_server_" + "history_";
    }
  }

  function Encoded(c: Codec, keys: seq<Bytes>): (l: seq<string>)
    ensures |l| == |keys|
  {
    seq(|keys|, i requires 0 <= i < |keys| => c.b64(keys[i]))
  }

  /** The storage holds `keys`, oldest first, for `id`. */
  ghost predicate Holds(c: Codec, s: Storage, id: string, keys: seq<Bytes>) {
    if keys == [] then Present(s, KeyName(id)) == None && History(c, s, id) == []
    else
      var n := |keys| - 1;
      Present(s, KeyName(id)) == Some(c.b64(keys[n])) && History(c, s, id) == Encoded(c, keys[..n])
  }

  lemma SaveHolds(c: Codec, s: Storage, id: string, key: Bytes, keys: seq<Bytes>)
    requires c.Lawful() && key != [] && Holds(c, s, id, keys)
    ensures Holds(c, Saved(c, s, id, key), id, keys + [key])
  {
    NamesDiffer(id, id);
    assert (keys + [key])[..|keys|] == keys;
    assert KeyName(id) != HistoryName(id) by {
      assert |KeyName(id)| != |HistoryName(id)|;
    }
    if keys != [] {
      var n := |keys| - 1;
      assert Encoded(c, keys[..n]) + [c.b64(keys[n])] == Encoded(c, keys);
    }
  }

  lemma OtherHolds(c: Codec, s: Storage, op: Op, id: string, ids: set<string>, keys: seq<Bytes>)
    requires Separate(ids) && op.id in ids && id in ids && op.id != id && Holds(c, s, id, keys)
    ensures Holds(c, if op.Save? then Saved(c, s, op.id, op.key) else Removed(s, op.id), id, keys)
  {
    NamesDiffer(op.id, id);
    NamesDiffer(id, op.id);
  }

  lemma {:induction false} RunHolds(c: Codec, ops: seq<Op>, ids: set<string>, id: string)
    requires c.Lawful() && Ordinary(ops, ids) && id in ids
    ensures Holds(c, Run(c, map[], ops), id, KeysSaved(ops, id))
  {
    if ops != [] {
      var n := |ops| - 1;
      RunHolds(c, ops[..n], ids, id);
      var before, keys, op := Run(c, map[], ops[..n]), KeysSaved(ops[..n], id), ops[n];
      if op.id != id {
        OtherHolds(c, before, op, id, ids, keys);
      } else if op.Save? {
        SaveHolds(c, before, id, op.key, keys);
      }
    }
  }

  function NewestFirst(keys: seq<Bytes>): seq<Bytes> {
    if keys == [] then [] else [keys[|keys| - 1]] + keys[..|keys| - 1]
  }

  /** After any run, a server's keys are those saved since its last removal: the newest, then the others, oldest first. */
  lemma AllKeysAreThoseSaved(c: Codec, ops: seq<Op>, ids: set<string>, id: string)
    requires c.Lawful() && Ordinary(ops, ids) && id in ids
    ensures AllKeys(c, Run(c, map[], ops), id) == NewestFirst(KeysSaved(ops, id))
  {
    RunHolds(c, ops, ids, id);
    var keys := KeysSaved(ops, id);
    if keys != [] {
      assert Decoded(c, Encoded(c, keys[..|keys| - 1])) == keys[..|keys| - 1];
    }
  }

  lemma {:induction false} OpensWithItsKey(a: Aead, keys: seq<Bytes>, k: Bytes, nonce: Bytes, p: Bytes)
    requires a.Lawful()
    ensures FirstOpened(a, keys, nonce, a.seal(k, nonce, p)) == if k in keys then Some(p) else None
  {
    if keys != [] {
      OpensWithItsKey(a, keys[1..], k, nonce, p);
      assert keys == [keys[0]] + keys[1..];
    }
  }

  /** Anything sealed under a key saved since the last removal opens, to what was sealed; nothing else does. */
  lemma OldMessagesStillOpen(c: Codec, a: Aead, ops: seq<Op>, ids: set<string>, id: string, k: Bytes, nonce: Bytes, p: Bytes)
    requires c.Lawful() && a.Lawful() && Ordinary(ops, ids) && id in ids
    ensures FirstOpened(a, AllKeys(c, Run(c, map[], ops), id), nonce, a.seal(k, nonce, p))
            == if k in KeysSaved(ops, id) then Some(p) else None
  {
    AllKeysAreThoseSaved(c, ops, ids, id);
    OpensWithItsKey(a, AllKeys(c, Run(c, map[], ops), id), k, nonce, p);
    var keys := KeysSaved(ops, id);
    if keys != [] {
      assert keys == keys[..|keys| - 1] + [keys[|keys| - 1]];
    }
  }

  // ----- Ids that collide -----

  /** What removing a server does, when its id spells another one's history name. */
  lemma RemovalTakesHistory(c: Codec, s: Storage, b: string, k1: Bytes, k2: Bytes)
    requires c.Lawful() && Holds(c, s, b, [k1, k2])
    ensures AllKeys(c, Removed(s, "history_" + b), b) == [k2]
  {
    var a := "history_" + b;
    NamesDiffer(a, b);
    assert |a| != |b|;
    assert [k1, k2][1] == k2;
  }

  lemma RunOneMore(c: Codec, ops: seq<Op>, op: Op)
    ensures var before := Run(c, map[], ops);
            Run(c, map[], ops + [op]) == if op.Save? then Saved(c, before, op.id, op.key) else Removed(before, op.id)
    ensures forall id :: KeysSaved(ops + [op], id) ==
                           (if op.id != id then KeysSaved(ops, id) else if op.Remove? then [] else KeysSaved(ops, id) + [op.key])
  {
    assert (ops + [op])[..|ops|] == ops;
  }

  function Collision(b: string, k1: Bytes, k2: Bytes): seq<Op> {
    [Save(b, k1)] + [Save(b, k2)] + [Remove("history_" + b)]
  }

  /** Removing a server whose id spells another one's history name loses every key of that one but the current. */
  lemma CollidingIdsLoseHistory(c: Codec, b: string, k1: Bytes, k2: Bytes)
    requires c.Lawful() && k1 != [] && k2 != []
    ensures KeysSaved(Collision(b, k1, k2), b) == [k1, k2]
    ensures AllKeys(c, Run(c, map[], Collision(b, k1, k2)), b) == [k2]
  {
    var none, one := [], [Save(b, k1)];
    var two := one + [Save(b, k2)];
    assert none + one == one;
    RunOneMore(c, none, Save(b, k1));
    RunOneMore(c, one, Save(b, k2));
    RunOneMore(c, two, Remove("history_" + b));
    assert |"history_" + b| != |b|;
    TwoSaved(c, b, k1, k2);
    RemovalTakesHistory(c, Run(c, map[], two), b, k1, k2);
  }

  lemma TwoSaved(c: Codec, b: string, k1: Bytes, k2: Bytes)
    requires c.Lawful() && k1 != [] && k2 != []
    ensures Holds(c, Saved(c, Saved(c, map[], b, k1), b, k2), b, [k1, k2])
  {
    SaveHolds(c, map[], b, k1, []);
    assert [] + [k1] == [k1] && [k1] + [k2] == [k1, k2];
    SaveHolds(c, Saved(c, map[], b, k1), b, k2, [k1]);
  }

  /** In every run on these servers, each one's keys are those saved. */
  ghost predicate KeepsAllKeys(c: Codec, ids: set<string>) {
    forall ops, id :: Concern(ops, ids) && id in ids ==> AllKeys(c, Run(c, map[], ops), id) == NewestFirst(KeysSaved(ops, id))
  }

  /** The keys are right in every run if and only if no id spells the history name of another. */
  lemma KeysAreKeptIff(c: Codec, ids: set<string>)
    requires c.Lawful()
    ensures KeepsAllKeys(c, ids) <==> Separate(ids)
  {
    if Separate(ids) {
      forall ops, id | Concern(ops, ids) && id in ids
        ensures AllKeys(c, Run(c, map[], ops), id) == NewestFirst(KeysSaved(ops, id))
      {
        AllKeysAreThoseSaved(c, ops, ids, id);
      }
    } else {
      var a, b :| a in ids && b in ids && a == "history_" + b;
      var k1: Bytes, k2: Bytes := [0], [1];
      CollidingIdsLoseHistory(c, b, k1, k2);
      assert Concern(Collision(b, k1, k2), ids);
      assert NewestFirst([k1, k2]) == [k2, k1];
    }
  }
}
