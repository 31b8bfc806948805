/** `secure-storage.js` as it runs: one page's cached key, and the storage it rewrites in place. */
module SecureStorage {
  import opened Wrappers
  import opened StorageFormats
  import opened StorageModel
  import opened StorageSafety
  import opened StorageStart

  /** The XOR loop shared by both directions. */
  method XorBytes(b: Bytes, key: Key) returns (r: Bytes)
    ensures r == Xor(b, key)
  {
    r := [];
    for i := 0 to |b|
      invariant |r| == i
      invariant forall j :: 0 <= j < i ==> r[j] == b[j] ^ key[j % 32]
    {
      r := r + [b[i] ^ key[i % 32]];
    }
  }

  method DecryptWithKey(p: Primitives, inner: string, key: Option<Key>) returns (o: Opened)
    ensures o == DecryptLegacy(p, key, inner)
  {
    if inner == "" || key.None? {
      return Unreadable;
    }
    var tag, body := None, inner;
    if IsTagged(inner) {
      tag, body := Some(inner[..TAG_HEX_LEN]), inner[TAG_HEX_LEN + 1..];
    }
    var bytes := p.atob(body);
    if bytes.None? {
      return Threw;
    }
    var plain := XorBytes(bytes.value, key.value);
    var text := p.decode(plain);
    if tag.Some? && p.tag(text) != tag.value {
      return Unreadable;
    }
    return Text(text);
  }

  method DecryptInnerWithKey(p: Primitives, sodium: bool, inner: string, key: Option<Key>) returns (o: Opened)
    ensures o == DecryptInner(p, sodium, key, inner)
  {
    if IsV2(inner) {
      return DecryptV2(p, sodium, key, inner);
    }
    o := DecryptWithKey(p, inner, key);
  }

  ghost predicate SameSecrets(a: map<string, string>, b: map<string, string>) {
    forall k :: IsSensitive(k) ==> Item(a, k) == Item(b, k)
  }

  ghost predicate SameBootstrap(a: map<string, string>, b: map<string, string>) {
    forall k :: IsBootstrapKey(k) ==> Item(a, k) == Item(b, k)
  }

  lemma AskingKeepsSecrets(p: Primitives, s: State, minted: Key)
    ensures SameSecrets(s.local, EnsureKey(p, s, minted).local)
  {
  }

  lemma RepairKeepsSecrets(p: Primitives, s: State, k: string, r: Random)
    requires p.Lawful() && WasAsked(p, s) && IsBootstrapKey(k) && k != LOCAL_KEY
    ensures SameSecrets(s.local, Repair(p, s, k, r).local) && WasAsked(p, Repair(p, s, k, r))
  {
    if k in s.local && IsEncrypted(s.local[k]) {
      var s1 := EnsureKey(p, s, r.key);
      AskingKeepsSecrets(p, s, r.key);
      AskingTwice(p, s, r.key);
      EditKeepsSecrets(p, s1, k, DecryptInner(p, s1.sodium, s1.key, s.local[k][1..]));
    }
  }

  lemma EditKeepsSecrets(p: Primitives, s: State, k: string, o: Opened)
    requires WasAsked(p, s) && IsBootstrapKey(k) && k != LOCAL_KEY
    ensures var local := if o.Text? then s.local[k := o.value] else s.local - {k};
            SameSecrets(s.local, local) && WasAsked(p, s.(local := local))
  {
    var local := if o.Text? then s.local[k := o.value] else s.local - {k};
    assert Item(local, LOCAL_KEY) == Item(s.local, LOCAL_KEY);
  }

  lemma StillLists(order: seq<string>, a: map<string, string>, b: map<string, string>)
    requires ListsSecrets(order, a) && SameSecrets(a, b)
    ensures ListsSecrets(order, b)
  {
    forall k | k in b && IsSensitive(k) ensures k in order {
      assert Item(a, k) == Item(b, k);
    }
  }

  /** Writing secrets does not change which key is found. */
  lemma AskingIgnoresSecrets(p: Primitives, s: State, local: map<string, string>, minted: Key)
    requires EnsureKey(p, s, minted) == s && SameBootstrap(s.local, local)
    ensures EnsureKey(p, s.(local := local), minted) == s.(local := local)
  {
    assert Item(s.local, DEVICE_KEY) == Item(local, DEVICE_KEY);
    assert Item(s.local, ENCRYPTED_PASSWORD) == Item(local, ENCRYPTED_PASSWORD);
    assert Item(s.local, LOCAL_KEY) == Item(local, LOCAL_KEY);
    assert s.key.None? ==> HasPasswordBootstrap(s.local);
  }

  /** The entries of `names` are migrated. */
  function MigratedPart(p: Primitives, s: State, r: Random, names: seq<string>): map<string, string> {
    map k | k in s.local ::
      if k in names && IsPlainSecret(s.local, k) then Stored(p, s.sodium, s.key, r.nonce(k), s.local[k]) else s.local[k]
  }

  /** One more secret encrypted. */
  ghost function WithOneMigrated(p: Primitives, s: State, k: string, r: Random): State
    requires k in s.local
  {
    var s1 := EnsureKey(p, s, r.key);
    s1.(local := s1.local[k := Stored(p, s1.sodium, s1.key, r.nonce(k), s.local[k])])
  }

  lemma MigrateOneMore(p: Primitives, s: State, r: Random, order: seq<string>, i: nat)
    requires i < |order| && order[i] !in order[..i]
    ensures var k, done := order[i], MigratedPart(p, s, r, order[..i]);
            && MigratedPart(p, s, r, order[..i + 1]) ==
                 (if IsPlainSecret(s.local, k) then done[k := Stored(p, s.sodium, s.key, r.nonce(k), s.local[k])] else done)
            && (k in s.local ==> done[k] == s.local[k])
  {
    var k, more := order[i], order[..i + 1];
    assert more == order[..i] + [k];
    assert forall j :: j in more <==> j in order[..i] || j == k;
  }

  lemma PlainSame(names: seq<string>, a: map<string, string>, b: map<string, string>)
    requires SameSecrets(a, b) && !AnyPlain(a, names)
    ensures forall k :: k in names ==> !IsPlainSecret(b, k)
  {
    forall k | k in names ensures !IsPlainSecret(b, k) {
      assert IsSensitive(k) ==> Item(a, k) == Item(b, k);
    }
  }

  lemma MigrateNone(p: Primitives, s: State, r: Random, names: seq<string>)
    requires forall k :: k in names ==> !IsPlainSecret(s.local, k)
    ensures MigratedPart(p, s, r, names) == s.local
  {
  }

  ghost predicate AnyPlain(local: map<string, string>, names: seq<string>) {
    exists k :: k in names && IsPlainSecret(local, k)
  }

  ghost function AfterItems(p: Primitives, s: State, r: Random, names: seq<string>): State {
    var s1 := EnsureKey(p, s, r.key);
    if AnyPlain(s.local, names) then s1.(local := MigratedPart(p, s1, r, names)) else s
  }

  lemma MigrateStep(p: Primitives, s: State, r: Random, order: seq<string>, i: nat)
    requires p.Lawful() && WasAsked(p, s) && i < |order| && order[i] !in order[..i]
    ensures var k, before := order[i], AfterItems(p, s, r, order[..i]);
            AfterItems(p, s, r, order[..i + 1]) ==
              if IsPlainSecret(before.local, k) then WithOneMigrated(p, before, k, r) else before
  {
    var k, s1, before := order[i], EnsureKey(p, s, r.key), AfterItems(p, s, r, order[..i]);
    AskingTwice(p, s, r.key);
    AskingKeepsSecrets(p, s, r.key);
    OneMorePlain(s.local, order, i);
    assert IsSensitive(k) ==> Item(s.local, k) == Item(s1.local, k);
    if AnyPlain(s.local, order[..i]) {
      LaterWrite(p, s1, r, order, i);
    } else {
      PlainSame(order[..i], s.local, s1.local);
      FirstWrite(p, s1, r, order, i);
    }
  }

  lemma FirstWrite(p: Primitives, s: State, r: Random, order: seq<string>, i: nat)
    requires i < |order| && order[i] !in order[..i] && forall k :: k in order[..i] ==> !IsPlainSecret(s.local, k)
    ensures var k := order[i];
            IsPlainSecret(s.local, k) ==>
              MigratedPart(p, s, r, order[..i + 1]) == s.local[k := Stored(p, s.sodium, s.key, r.nonce(k), s.local[k])]
  {
    MigrateOneMore(p, s, r, order, i);
    MigrateNone(p, s, r, order[..i]);
  }

  lemma LaterWrite(p: Primitives, s: State, r: Random, order: seq<string>, i: nat)
    requires EnsureKey(p, s, r.key) == s && i < |order| && order[i] !in order[..i]
    ensures var k, before := order[i], s.(local := MigratedPart(p, s, r, order[..i]));
            s.(local := MigratedPart(p, s, r, order[..i + 1])) ==
              if IsPlainSecret(before.local, k) then WithOneMigrated(p, before, k, r) else before
  {
    MigrateOneMore(p, s, r, order, i);
    AskingIgnoresSecrets(p, s, MigratedPart(p, s, r, order[..i]), r.key);
  }

  lemma OneMorePlain(local: map<string, string>, order: seq<string>, i: nat)
    requires i < |order|
    ensures AnyPlain(local, order[..i + 1]) <==> AnyPlain(local, order[..i]) || IsPlainSecret(local, order[i])
  {
    assert order[..i + 1] == order[..i] + [order[i]];
  }

  lemma AfterAllItems(p: Primitives, s: State, r: Random, order: seq<string>)
    requires ListsSecrets(order, s.local)
    ensures AfterItems(p, s, r, order) == Migrate(p, s, r)
  {
    var s1 := EnsureKey(p, s, r.key);
    AskingKeepsSecrets(p, s, r.key);
    StillLists(order, s.local, s1.local);
    assert MigratedPart(p, s1, r, order) == Migrated(p, s1, r);
    if exists k :: IsPlainSecret(s.local, k) {
      var k :| IsPlainSecret(s.local, k);
      assert k in order;
    }
  }

  /** The texts that the secrets among `names` show under the old key. */
  function TextsOf(p: Primitives, s: State, previous: Option<Key>, names: seq<string>): map<string, string> {
    map k | k in s.local && k in names && IsSensitive(k) && OldText(p, s.sodium, previous, s.local[k]).Some? ::
      OldText(p, s.sodium, previous, s.local[k]).value
  }

  lemma TextsOneMore(p: Primitives, s: State, previous: Option<Key>, order: seq<string>, i: nat)
    requires i < |order|
    ensures var k, before := order[i], TextsOf(p, s, previous, order[..i]);
            TextsOf(p, s, previous, order[..i + 1]) ==
              if k in s.local && IsSensitive(k) && OldText(p, s.sodium, previous, s.local[k]).Some?
              then before[k := OldText(p, s.sodium, previous, s.local[k]).value]
              else before
  {
    assert order[..i + 1] == order[..i] + [order[i]];
  }

  lemma RekeyedIsCollected(p: Primitives, s: State, previous: Option<Key>, d: Key, r: Random, order: seq<string>)
    requires ListsSecrets(order, s.local)
    ensures var texts, local := TextsOf(p, s, previous, order), s.local - {LOCAL_KEY};
            Rekeyed(p, s, previous, d, r) ==
              SealedBut(p, local, texts, {}, d, r)
  {
  }

  /** All texts are written anew, but for those still left. */
  function SealedBut(p: Primitives, local: map<string, string>, texts: map<string, string>, left: set<string>, d: Key, r: Random): map<string, string> {
    map k | k in local :: if k in texts && k !in left then [MAGIC] + SealV2(p, d, r.nonce(k), texts[k]) else local[k]
  }

  lemma NoneSealed(p: Primitives, local: map<string, string>, texts: map<string, string>, d: Key, r: Random)
    ensures SealedBut(p, local, texts, texts.Keys, d, r) == local
  {
  }

  lemma SealOneMore(p: Primitives, local: map<string, string>, texts: map<string, string>, left: set<string>, d: Key, r: Random, k: string)
    requires k in left && k in texts && k in local
    ensures SealedBut(p, local, texts, left - {k}, d, r) ==
            SealedBut(p, local, texts, left, d, r)[k := [MAGIC] + SealV2(p, d, r.nonce(k), texts[k])]
  {
  }

  /** A sealed value is never a legacy one. */
  lemma SealedDiffers(p: Primitives, key: Key, nonce: Nonce, text: string, legacy: string)
    requires IsEncrypted(legacy) && !IsV2(legacy[1..])
    ensures [MAGIC] + SealV2(p, key, nonce, text) != legacy
  {
    assert ([MAGIC] + SealV2(p, key, nonce, text))[1..] == SealV2(p, key, nonce, text);
  }

  // ----- Wiping -----

  /** The same but for the cached copy of a key in memory. */
  ghost predicate Alike(a: State, b: State) {
    a.(session := None) == b.(session := None) && (a.key.None? ==> a == b)
  }

  /** Once asked for, the key stays what it is; its cached copy may be written anew. */
  lemma AskingAgain(p: Primitives, s: State, minted: Key, now: State)
    requires Alike(now, EnsureKey(p, s, minted))
    ensures Alike(EnsureKey(p, now, minted), EnsureKey(p, s, minted))
  {
    if now.key.None? {
      AskedInVain(p, s, minted);
      AskingInVain(p, s, minted);
    }
  }

  ghost predicate AnyHidden(local: map<string, string>, names: seq<string>) {
    exists k :: k in names && IsHiddenMedia(local, k)
  }

  lemma OneMoreHidden(local: map<string, string>, order: seq<string>, i: nat)
    requires i < |order|
    ensures AnyHidden(local, order[..i + 1]) <==> AnyHidden(local, order[..i]) || IsHiddenMedia(local, order[i])
  {
    assert order[..i + 1] == order[..i] + [order[i]];
  }

  /** The texts of the media caches among `names`. */
  function MediaTextsOf(p: Primitives, s: State, key: Option<Key>, names: seq<string>): map<string, string> {
    map k | k in s.local && k in names && IsMediaCache(k) && OldText(p, s.sodium, key, s.local[k]).Some? ::
      OldText(p, s.sodium, key, s.local[k]).value
  }

  lemma MediaOneMore(p: Primitives, s: State, key: Option<Key>, order: seq<string>, i: nat)
    requires i < |order|
    ensures var k, before := order[i], MediaTextsOf(p, s, key, order[..i]);
            MediaTextsOf(p, s, key, order[..i + 1]) ==
              if k in s.local && IsMediaCache(k) && OldText(p, s.sodium, key, s.local[k]).Some?
              then before[k := OldText(p, s.sodium, key, s.local[k]).value]
              else before
  {
    assert order[..i + 1] == order[..i] + [order[i]];
  }

  lemma MediaAreListed(order: seq<string>, local: map<string, string>, k: string)
    requires ListsSecrets(order, local) && IsMediaCache(k)
    ensures IsSensitive(k) && (k in local ==> k in order)
  {
    MediaIsSecret(k);
  }

  lemma AnyHiddenListed(order: seq<string>, local: map<string, string>)
    requires ListsSecrets(order, local)
    ensures AnyHidden(local, order) <==> exists k :: IsHiddenMedia(local, k)
  {
    if k :| IsHiddenMedia(local, k) {
      MediaAreListed(order, local, k);
    }
  }

  lemma AllMediaRead(p: Primitives, s: State, order: seq<string>, r: Random)
    requires ListsSecrets(order, s.local)
    ensures AnyHidden(s.local, order) <==> exists k :: IsHiddenMedia(s.local, k)
    ensures MediaTextsOf(p, s, EnsureKey(p, s, r.key).key, order) == MediaTexts(p, AfterMediaReads(p, s, r))
  {
    var s1 := AfterMediaReads(p, s, r);
    AnyHiddenListed(order, s.local);
    AskingKeepsSecrets(p, s, r.key);
    EnsureKeyFlags(p, s, r.key);
    forall k | IsMediaCache(k) ensures Item(s1.local, k) == Item(s.local, k) && (k in s.local ==> k in order) {
      MediaAreListed(order, s.local, k);
    }
    SameMediaTexts(p, s, s1, EnsureKey(p, s, r.key).key, order);
  }

  lemma SameMediaTexts(p: Primitives, s: State, s1: State, key: Option<Key>, order: seq<string>)
    requires s1.sodium == s.sodium && ((exists k :: IsHiddenMedia(s.local, k)) ==> s1.key == key)
    requires forall k :: IsMediaCache(k) ==> Item(s1.local, k) == Item(s.local, k) && (k in s.local ==> k in order)
    ensures MediaTextsOf(p, s, key, order) == MediaTexts(p, s1)
  {
    forall k ensures Item(MediaTextsOf(p, s, key, order), k) == Item(MediaTexts(p, s1), k) {
      assert IsMediaCache(k) ==> Item(s1.local, k) == Item(s.local, k);
      assert IsHiddenMedia(s.local, k) ==> s1.key == key;
    }
    SameItems(MediaTextsOf(p, s, key, order), MediaTexts(p, s1));
  }

  /** The first text written again asks for the key, the others find it as it is. */
  lemma FirstSet(p: Primitives, s: State, k: string, v: string, r: Random)
    requires IsMediaCache(k)
    ensures var s2, now := EnsureKey(p, s, r.key), Set(p, s, k, v, r);
            && Alike(now.(local := s2.local), s2)
            && now.local == s2.local[k := Stored(p, s2.sodium, s2.key, r.nonce(k), v)]
  {
    MediaIsSecret(k);
    AskingAgain(p, s, r.key, EnsureKey(p, s, r.key));
  }

  lemma LaterSet(p: Primitives, s: State, before: State, k: string, v: string, r: Random)
    requires IsMediaCache(k)
    requires var s2 := EnsureKey(p, s, r.key); Alike(before.(local := s2.local), s2) && SameBootstrap(s2.local, before.local)
    ensures var s2, now := EnsureKey(p, s, r.key), Set(p, before, k, v, r);
            && Alike(now.(local := s2.local), s2)
            && now.local == before.local[k := Stored(p, s2.sodium, s2.key, r.nonce(k), v)]
  {
    MediaIsSecret(k);
    var s2 := EnsureKey(p, s, r.key);
    if s2.key.None? {
      AskedInVain(p, s, r.key);
      AskingInVain(p, s, r.key);
      AskingIgnoresSecrets(p, s2, before.local, r.key);
      assert s2.(local := before.local) == before;
    }
  }

  predicate AllMedia(texts: map<string, string>) {
    forall k :: k in texts ==> IsMediaCache(k)
  }

  /** What is stored once the texts of `done` are written again. */
  function Rewritten(p: Primitives, s: State, texts: map<string, string>, done: set<string>, r: Random, k: string): Option<string> {
    if k in texts && k in done then Some(Stored(p, s.sodium, s.key, r.nonce(k), texts[k])) else Item(s.local, k)
  }

  ghost predicate HoldsRewritten(p: Primitives, s: State, local: map<string, string>, texts: map<string, string>, done: set<string>, r: Random) {
    forall k :: Item(local, k) == Rewritten(p, s, texts, done, r, k)
  }

  /** `now` is what rewriting the texts of `done` makes of `s`; `s2` is `s` once the key has been asked for. */
  ghost predicate HasRewritten(p: Primitives, s: State, s2: State, now: State, texts: map<string, string>, done: set<string>, r: Random) {
    if done == {} then now == s
    else Alike(now.(local := s2.local), s2) && HoldsRewritten(p, s2, now.local, texts, done, r)
  }

  lemma NextRewritten(p: Primitives, s: State, s2: State, now: State, texts: map<string, string>, done: set<string>, k: string, r: Random)
    requires HasRewritten(p, s, s2, now, texts, done, r) && s2 == EnsureKey(p, s, r.key) && k in texts && k !in done
    requires AllMedia(texts)
    ensures HasRewritten(p, s, s2, Set(p, now, k, texts[k], r), texts, done + {k}, r)
  {
    if done == {} {
      FirstSet(p, s, k, texts[k], r);
      RewriteOneMore(p, s2, s2.local, texts, {}, k, r);
      assert {} + {k} == done + {k};
    } else {
      RewrittenBootstrap(p, s2, now.local, texts, done, r);
      LaterSet(p, s, now, k, texts[k], r);
      RewriteOneMore(p, s2, now.local, texts, done, k, r);
    }
  }

  lemma RewriteOneMore(p: Primitives, s: State, local: map<string, string>, texts: map<string, string>, done: set<string>, k: string, r: Random)
    requires k in texts && if done == {} then local == s.local else HoldsRewritten(p, s, local, texts, done, r)
    ensures HoldsRewritten(p, s, local[k := Stored(p, s.sodium, s.key, r.nonce(k), texts[k])], texts, done + {k}, r)
  {
    var local' := local[k := Stored(p, s.sodium, s.key, r.nonce(k), texts[k])];
    forall j ensures Item(local', j) == Rewritten(p, s, texts, done + {k}, r, j) {
      assert done != {} ==> Item(local, j) == Rewritten(p, s, texts, done, r, j);
    }
  }

  /** `now` and `texts` are what reading the media caches among `names` makes of `s`. */
  ghost predicate HasRead(p: Primitives, s: State, now: State, texts: map<string, string>, names: seq<string>, r: Random) {
    && (if AnyHidden(s.local, names) then Alike(now, EnsureKey(p, s, r.key)) else now == s)
    && texts == MediaTextsOf(p, s, EnsureKey(p, s, r.key).key, names)
  }

  /** What reading one entry gives: its text, and the state after. */
  ghost function AfterSecGet(p: Primitives, s: State, k: string, r: Random): State {
    if k != "" && k in s.local && IsEncrypted(s.local[k]) then EnsureKey(p, s, r.key) else s
  }

  function SecGetText(p: Primitives, s: State, after: State, k: string): Option<string> {
    if k == "" || k !in s.local then None else OldText(p, after.sodium, after.key, s.local[k])
  }

  lemma NextRead(p: Primitives, s: State, now: State, texts: map<string, string>, order: seq<string>, i: nat, r: Random)
    requires i < |order| && HasRead(p, s, now, texts, order[..i], r) && IsMediaCache(order[i])
    ensures var k, after := order[i], AfterSecGet(p, now, order[i], r);
            var v := SecGetText(p, now, after, k);
            HasRead(p, s, after, if v.Some? then texts[k := v.value] else texts, order[..i + 1], r)
  {
    var k, asked := order[i], EnsureKey(p, s, r.key);
    MediaIsSecret(k);
    OneMoreHidden(s.local, order, i);
    MediaOneMore(p, s, asked.key, order, i);
    AskingKeepsSecrets(p, s, r.key);
    assert Item(asked.local, k) == Item(s.local, k) && Item(now.local, k) == Item(s.local, k);
    EnsureKeyFlags(p, s, r.key);
    if AnyHidden(s.local, order[..i]) {
      AskingAgain(p, s, r.key, now);
      EnsureKeyFlags(p, now, r.key);
    }
  }

  lemma NotRead(p: Primitives, s: State, now: State, texts: map<string, string>, order: seq<string>, i: nat, r: Random)
    requires i < |order| && HasRead(p, s, now, texts, order[..i], r) && !IsMediaCache(order[i])
    ensures HasRead(p, s, now, texts, order[..i + 1], r)
  {
    OneMoreHidden(s.local, order, i);
    MediaOneMore(p, s, EnsureKey(p, s, r.key).key, order, i);
  }

  lemma ReadAll(p: Primitives, s: State, now: State, texts: map<string, string>, order: seq<string>, r: Random)
    requires ListsSecrets(order, s.local) && HasRead(p, s, now, texts, order, r)
    ensures texts == MediaTexts(p, AfterMediaReads(p, s, r)) && Alike(now, AfterMediaReads(p, s, r))
  {
    AllMediaRead(p, s, order, r);
  }

  lemma NothingRewritten(p: Primitives, s: State, s2: State, texts: map<string, string>, r: Random)
    ensures HasRewritten(p, s, s2, s, texts, {}, r)
  {
  }

  lemma MediaOnly(p: Primitives, s: State, texts: map<string, string>, r: Random)
    requires texts == MediaTexts(p, AfterMediaReads(p, s, r))
    ensures AllMedia(texts)
  {
  }

  /** The wipe, put together. */
  lemma WipeIs(p: Primitives, s: State, c: State, s2: State, now: State, texts: map<string, string>, r: Random)
    requires c == ClearAll(AfterMediaReads(p, s, r)) && s2 == EnsureKey(p, c, r.key)
    requires texts == MediaTexts(p, AfterMediaReads(p, s, r)) && AllMedia(texts) && HasRewritten(p, c, s2, now, texts, texts.Keys, r)
    ensures Wipe(p, s, r) == now.(session := None, local := Rest(now.local))
  {
    var s1, ask := AfterMediaReads(p, s, r), texts != map[];
    ClearedHasNoSecrets(p, s1, s1, ask, r.key);
    assert ask <==> texts.Keys != {};
    SparedIsRest(p, if ask then s2 else c, now.local, texts, r);
  }

  lemma ClearedHasNoSecrets(p: Primitives, s: State, now: State, ask: bool, minted: Key)
    requires Alike(now, s)
    ensures ClearAll(now) == ClearAll(s)
    ensures var s2 := if ask then EnsureKey(p, ClearAll(s), minted) else ClearAll(s);
            forall k :: k in s2.local ==> !IsSensitive(k)
  {
    var c := ClearAll(s);
    AskingKeepsSecrets(p, c, minted);
    var s2 := if ask then EnsureKey(p, c, minted) else c;
    forall k | k in s2.local ensures !IsSensitive(k) {
      assert IsSensitive(k) ==> Item(s2.local, k) == Item(c.local, k);
    }
  }

  lemma RewrittenBootstrap(p: Primitives, s: State, local: map<string, string>, texts: map<string, string>, done: set<string>, r: Random)
    requires AllMedia(texts) && HoldsRewritten(p, s, local, texts, done, r)
    ensures SameBootstrap(s.local, local)
  {
    forall k | IsBootstrapKey(k) ensures Item(s.local, k) == Item(local, k) {
      MediaIsSecret(k);
      assert Item(local, k) == Rewritten(p, s, texts, done, r, k);
    }
  }

  predicate IsSpared(k: string) {
    IsMediaCache(k) || IsPreference(k)
  }

  function Rest(local: map<string, string>): map<string, string> {
    map k | k in local && IsSpared(k) :: local[k]
  }

  lemma SparedIsRest(p: Primitives, s: State, local: map<string, string>, texts: map<string, string>, r: Random)
    requires (forall k :: k in s.local ==> !IsSensitive(k)) && AllMedia(texts) && HoldsRewritten(p, s, local, texts, texts.Keys, r)
    ensures Spared(p, s, texts, r) == Rest(local)
  {
    var spared, rest := Spared(p, s, texts, r), Rest(local);
    forall k ensures Item(spared, k) == Item(rest, k) {
      MediaIsSecret(k);
      assert Item(local, k) == Rewritten(p, s, texts, texts.Keys, r, k);
    }
    SameItems(spared, rest);
  }

  lemma SameItems(a: map<string, string>, b: map<string, string>)
    requires forall k :: Item(a, k) == Item(b, k)
    ensures a == b
  {
    assert forall k :: k in a <==> Item(a, k).Some?;
    assert forall k :: k in b <==> Item(b, k).Some?;
    forall k | k in a ensures k in b && a[k] == b[k] {
      assert Item(a, k) == Item(b, k);
    }
  }

  /** The listing of a storage names each secret once. */
  ghost predicate ListsSecrets(order: seq<string>, local: map<string, string>) {
    && (forall k :: k in local && IsSensitive(k) ==> k in order)
    && (forall i, j :: 0 <= i < j < |order| ==> order[i] != order[j])
  }

  class SecureStorage {
    const p: Primitives
    var local: map<string, string>
    var session: Option<string>
    var key: Option<Key>
    var sodium: bool
    var crypto: bool
    var pending: bool
    var initDone: bool

    function Snapshot(): State
      reads this
    {
      State(local, session, key, sodium, crypto, pending, initDone)
    }

    /** A page load. */
    constructor (p: Primitives, saved: map<string, string>, session: Option<string>, sodium: bool, crypto: bool,
                 order: seq<string>, r: Random)
      requires p.Lawful() && ListsSecrets(order, saved)
      ensures this.p == p
      ensures Snapshot() == SecInit(p, State(saved, session, None, sodium, crypto, false, false), r)
    {
      this.p, local, this.session, this.key := p, saved, session, None;
      this.sodium, this.crypto, pending, initDone := sodium, crypto, false, false;
      new;
      Init(order, r);
    }

    method Derive() returns (d: Option<Key>)
      ensures d == TryDerive(p, Snapshot())
    {
      if !HasPasswordBootstrap(local) {
        return None;
      }
      var blob := local[ENCRYPTED_PASSWORD];
      var current := CurrentKey(p, Snapshot());
      if IsEncrypted(blob) && current.Some? {
        var o := DecryptWithKey(p, blob[1..], current);
        if o.Text? {
          blob := o.value;
        }
      }
      if !HasWrappedForm(blob) || !crypto || !sodium {
        return None;
      }
      var pw := p.unwrap(blob, local[DEVICE_KEY]);
      if !IsTruthy(pw) {
        return None;
      }
      return Some(p.stretch(pw.value));
    }

    method Ensure(minted: Key) returns (k: Option<Key>)
      modifies this
      ensures Snapshot() == EnsureKey(p, old(Snapshot()), minted) && k == key
    {
      if key.Some? {
        session := Some(p.btoa(key.value));
        return key;
      }
      if HasPasswordBootstrap(local) {
        var d := Derive();
        if d.Some? {
          key, session, local, pending := d, Some(p.btoa(d.value)), local - {LOCAL_KEY}, false;
          return key;
        }
        pending := true;
        key := KeyFrom(p, session);
        if key.None? {
          key := KeyFrom(p, Item(local, LOCAL_KEY));
        }
        return key;
      }
      key := KeyFrom(p, session);
      if key.None? {
        key := KeyFrom(p, Item(local, LOCAL_KEY));
        if key.None? {
          key := Some(minted);
          local := local[LOCAL_KEY := p.btoa(minted)];
        }
        session := Some(p.btoa(key.value));
      }
      return key;
    }

    method Encrypt(text: string, nonce: Nonce, minted: Key) returns (inner: Option<string>)
      requires p.Lawful()
      modifies this
      ensures var s := EnsureKey(p, old(Snapshot()), minted);
              && Snapshot() == (if sodium then s else EnsureKey(p, s, minted))
              && inner == EncryptInner(p, sodium, key, nonce, text)
    {
      var k := Ensure(minted);
      if sodium {
        return if k.Some? then Some(SealV2(p, k.value, nonce, text)) else None;
      }
      k := Ensure(minted);
      if k.None? {
        return XorEncrypt(p, None, text);
      }
      var bytes := XorBytes(p.encode(text), k.value);
      return Some(p.tag(text) + "." + p.btoa(bytes));
    }

    // ----- The interceptors -----

    method GetItem(k: string, r: Random) returns (v: Option<string>)
      modifies this
      ensures Snapshot() == AfterGet(p, old(Snapshot()), k, r)
      ensures v == Get(p, old(Snapshot()), k, r)
    {
      if !IsSensitive(k) || k !in local || !IsEncrypted(local[k]) {
        return Item(local, k);
      }
      var raw := local[k];
      var key := Ensure(r.key);
      var o := DecryptInnerWithKey(p, sodium, raw[1..], key);
      return match o case Text(text) => Some(text) case Unreadable => None case Threw => Some(raw);
    }

    method SetItem(k: string, v: string, r: Random)
      requires p.Lawful()
      modifies this
      ensures Snapshot() == Set(p, old(Snapshot()), k, v, r)
    {
      if IsSensitive(k) {
        var ignored := Ensure(r.key);
        ghost var s := Snapshot();
        AskingTwice(p, old(Snapshot()), r.key);
        AskingTwice(p, s, r.key);
        var inner := Encrypt(v, r.nonce(k), r.key);
        if inner.Some? {
          local := local[k := [MAGIC] + inner.value];
          return;
        }
      }
      local := local[k := v];
    }

    method RemoveItem(k: string)
      modifies this`local
      ensures local == old(local) - {k}
    {
      local := local - {k};
    }

    // ----- Starting -----

    method RepairItem(k: string, r: Random)
      modifies this
      ensures Snapshot() == Repair(p, old(Snapshot()), k, r)
    {
      if k !in local || !IsEncrypted(local[k]) {
        return;
      }
      var raw := local[k];
      var key := Ensure(r.key);
      var o := DecryptInnerWithKey(p, sodium, raw[1..], key);
      if o.Text? {
        local := local[k := o.value];
      } else {
        local := local - {k};
      }
    }

    method Init(order: seq<string>, r: Random)
      requires p.Lawful() && ListsSecrets(order, local)
      modifies this
      ensures Snapshot() == SecInit(p, old(Snapshot()), r)
    {
      if initDone {
        return;
      }
      ghost var s0 := Snapshot();
      var ignored := Ensure(r.key);
      ghost var s1 := Snapshot();
      AskingKeepsSecrets(p, s0, r.key);
      AskingTwice(p, s0, r.key);
      StillLists(order, s0.local, s1.local);
      RepairItems(order, r);
      MigrateItems(order, r);
      initDone := true;
    }

    method RepairItems(ghost order: seq<string>, r: Random)
      requires p.Lawful() && WasAsked(p, Snapshot()) && ListsSecrets(order, local)
      modifies this
      ensures Snapshot() ==
              Repair(p, Repair(p, Repair(p, old(Snapshot()), DEVICE_KEY, r), ENCRYPTED_PASSWORD, r), FRIEND_CODE, r)
      ensures WasAsked(p, Snapshot()) && ListsSecrets(order, local)
    {
      ghost var s0 := Snapshot();
      RepairItem(DEVICE_KEY, r);
      ghost var s1 := Snapshot();
      RepairKeepsSecrets(p, s0, DEVICE_KEY, r);
      StillLists(order, s0.local, s1.local);
      RepairItem(ENCRYPTED_PASSWORD, r);
      ghost var s2 := Snapshot();
      RepairKeepsSecrets(p, s1, ENCRYPTED_PASSWORD, r);
      StillLists(order, s1.local, s2.local);
      RepairItem(FRIEND_CODE, r);
      RepairKeepsSecrets(p, s2, FRIEND_CODE, r);
      StillLists(order, s2.local, local);
    }

    method MigrateItem(k: string, r: Random)
      requires p.Lawful() && WasAsked(p, Snapshot())
      modifies this
      ensures WasAsked(p, Snapshot())
      ensures Snapshot() == if !IsPlainSecret(old(local), k) then old(Snapshot()) else WithOneMigrated(p, old(Snapshot()), k, r)
    {
      if IsPlainSecret(local, k) {
        AskingTwice(p, Snapshot(), r.key);
        AskingKeepsSecrets(p, Snapshot(), r.key);
        assert Item(local, k) == Item(EnsureKey(p, Snapshot(), r.key).local, k);
        var inner := Encrypt(local[k], r.nonce(k), r.key);
        assert local == local[k := local[k]];
        if inner.Some? {
          local := local[k := [MAGIC] + inner.value];
        }
        assert Item(local, LOCAL_KEY) == Item(EnsureKey(p, old(Snapshot()), r.key).local, LOCAL_KEY);
      }
    }

    /** Encrypts the secrets that are still plain. */
    method MigrateItems(order: seq<string>, r: Random)
      requires p.Lawful() && ListsSecrets(order, local) && WasAsked(p, Snapshot())
      modifies this
      ensures Snapshot() == Migrate(p, old(Snapshot()), r)
    {
      ghost var s0 := Snapshot();
      for i := 0 to |order|
        invariant WasAsked(p, Snapshot())
        invariant Snapshot() == AfterItems(p, s0, r, order[..i])
      {
        MigrateStep(p, s0, r, order, i);
        MigrateItem(order[i], r);
      }
      assert order[..|order|] == order;
      AfterAllItems(p, s0, r, order);
    }

    // ----- Once the libraries are ready -----

    method Redrive() returns (ok: bool)
      modifies this
      ensures Snapshot() == StorageModel.Redrive(p, old(Snapshot())) && ok == TryDerive(p, old(Snapshot())).Some?
    {
      var d := Derive();
      if d.None? {
        return false;
      }
      key, session, local, pending := d, Some(p.btoa(d.value)), local - {LOCAL_KEY}, false;
      return true;
    }

    /** Re-encrypts the legacy values; `threw` when an invalid one ended the pass. */
    method Upgrade(order: seq<string>, r: Random) returns (changed: bool, threw: bool)
      modifies this`local
      ensures UpgradeToAead(p, old(Snapshot()), order, r) == StorageModel.Upgrade(local, changed, threw)
      ensures local.Keys == old(local).Keys
    {
      changed, threw := false, false;
      var key := CurrentKey(p, Snapshot());
      if !sodium || key.None? {
        return;
      }
      ghost var all := UpgradeFrom(p, local, order, key.value, r);
      for i := 0 to |order|
        invariant local.Keys == old(local).Keys
        invariant var rest := UpgradeFrom(p, local, order[i..], key.value, r);
                  all == rest.(changed := changed || rest.changed)
      {
        var k := order[i];
        assert order[i..][0] == k && order[i..][1..] == order[i + 1..];
        if k in local && IsSensitive(k) && IsEncrypted(local[k]) && !IsV2(local[k][1..]) {
          var o := DecryptWithKey(p, local[k][1..], key);
          if o.Threw? {
            threw := true;
            return;
          }
          if o.Text? {
            SealedDiffers(p, key.value, r.nonce(k), o.value, local[k]);
            local := local[k := [MAGIC] + SealV2(p, key.value, r.nonce(k), o.value)];
            changed := true;
          } else {
            assert local[k := local[k]] == local;
          }
        } else {
          assert k in local ==> local[k := local[k]] == local;
        }
      }
    }

    method AfterSodium(order: seq<string>, r: Random)
      requires p.Lawful() && ListsSecrets(order, local)
      modifies this
      ensures Snapshot() == SodiumCallback(p, old(Snapshot()), order, r)
    {
      if pending {
        var ok := Redrive();
      }
      var changed, threw := Upgrade(order, r);
      if !threw {
        Init(order, r);
      }
    }

    // ----- Changing the key -----

    method Rekey(order: seq<string>, r: Random) returns (ok: bool)
      requires ListsSecrets(order, local)
      modifies this
      ensures Snapshot() == ReKey(p, old(Snapshot()), r) && ok == ReKeySucceeds(p, old(Snapshot()))
    {
      var previous := CurrentKey(p, Snapshot());
      key, session := None, None;
      var d := Derive();
      if d.None? {
        return false;
      }
      SwitchTo(d.value, previous, order, r);
      return true;
    }

    /** Collects the texts under the old key before anything changes, then writes them under the new one. */
    method SwitchTo(d: Key, previous: Option<Key>, order: seq<string>, r: Random)
      requires ListsSecrets(order, local)
      modifies this
      ensures Snapshot() == old(Snapshot()).(key := Some(d), session := Some(p.btoa(d)),
                                             local := Rekeyed(p, old(Snapshot()), previous, d, r))
    {
      RekeyedIsCollected(p, Snapshot(), previous, d, r, order);
      var texts := CollectTexts(previous, order);
      key, session, local := Some(d), Some(p.btoa(d)), local - {LOCAL_KEY};
      WriteSealed(texts, d, r);
    }

    method CollectTexts(previous: Option<Key>, order: seq<string>) returns (texts: map<string, string>)
      ensures texts == TextsOf(p, Snapshot(), previous, order)
    {
      texts := map[];
      for i := 0 to |order|
        invariant texts == TextsOf(p, Snapshot(), previous, order[..i])
      {
        var k := order[i];
        TextsOneMore(p, Snapshot(), previous, order, i);
        if k in local && IsSensitive(k) {
          if !IsEncrypted(local[k]) {
            texts := texts[k := local[k]];
          } else if previous.Some? {
            var o := DecryptInnerWithKey(p, sodium, local[k][1..], previous);
            if o.Text? {
              texts := texts[k := o.value];
            }
          }
        }
      }
      assert order[..|order|] == order;
    }

    /** Writes every text anew under `d`. */
    method WriteSealed(texts: map<string, string>, d: Key, r: Random)
      requires texts.Keys <= local.Keys
      modifies this`local
      ensures local == SealedBut(p, old(local), texts, {}, d, r)
    {
      var left := texts.Keys;
      NoneSealed(p, local, texts, d, r);
      while left != {}
        invariant left <= texts.Keys
        invariant local == SealedBut(p, old(local), texts, left, d, r)
        decreases |left|
      {
        var k :| k in left;
        SealOneMore(p, old(local), texts, left, d, r, k);
        local := local[k := [MAGIC] + SealV2(p, d, r.nonce(k), texts[k])];
        left := left - {k};
      }
    }

    // ----- Wiping -----

    method SecGet(k: string, r: Random) returns (v: Option<string>)
      modifies this
      ensures Snapshot() == AfterSecGet(p, old(Snapshot()), k, r)
      ensures v == SecGetText(p, old(Snapshot()), Snapshot(), k)
    {
      if k == "" || k !in local {
        return None;
      }
      var raw := local[k];
      if !IsEncrypted(raw) {
        return Some(raw);
      }
      EnsureKeyFlags(p, Snapshot(), r.key);
      var found := Ensure(r.key);
      var o := DecryptInnerWithKey(p, sodium, raw[1..], found);
      return if o.Text? then Some(o.value) else None;
    }

    method ClearSecrets()
      modifies this
      ensures Snapshot() == ClearAll(old(Snapshot()))
    {
      RemoveAll(set k | k in local && IsSensitive(k));
      session, key := None, None;
    }

    method RemoveAll(names: set<string>)
      modifies this`local
      ensures local == old(local) - names
    {
      var left := names;
      while left != {}
        invariant left <= names && local == old(local) - (names - left)
        decreases |left|
      {
        var k :| k in left;
        RemoveItem(k);
        left := left - {k};
      }
    }

    method ReadMedia(order: seq<string>, r: Random) returns (texts: map<string, string>)
      requires ListsSecrets(order, local)
      modifies this
      ensures var s1 := AfterMediaReads(p, old(Snapshot()), r);
              texts == MediaTexts(p, s1) && Alike(Snapshot(), s1)
    {
      texts := map[];
      ghost var s := Snapshot();
      for i := 0 to |order|
        invariant HasRead(p, s, Snapshot(), texts, order[..i], r)
      {
        texts := ReadOne(s, texts, order, i, r);
      }
      assert order[..|order|] == order;
      ReadAll(p, s, Snapshot(), texts, order, r);
    }

    method ReadOne(ghost s: State, texts: map<string, string>, order: seq<string>, i: nat, r: Random) returns (more: map<string, string>)
      requires i < |order| && HasRead(p, s, Snapshot(), texts, order[..i], r)
      modifies this
      ensures HasRead(p, s, Snapshot(), more, order[..i + 1], r)
    {
      var k := order[i];
      if !IsMediaCache(k) {
        NotRead(p, s, Snapshot(), texts, order, i, r);
        return texts;
      }
      NextRead(p, s, Snapshot(), texts, order, i, r);
      var v := SecGet(k, r);
      return if v.Some? then texts[k := v.value] else texts;
    }

    /** Writes the texts again, under the key that the first of them asks for. */
    method RewriteMedia(texts: map<string, string>, r: Random)
      requires p.Lawful() && AllMedia(texts)
      modifies this
      ensures HasRewritten(p, old(Snapshot()), EnsureKey(p, old(Snapshot()), r.key), Snapshot(), texts, texts.Keys, r)
    {
      ghost var s, s2 := Snapshot(), EnsureKey(p, Snapshot(), r.key);
      NothingRewritten(p, s, s2, texts, r);
      RewriteRest(s, s2, texts, r);
    }

    method RewriteRest(ghost s: State, ghost s2: State, texts: map<string, string>, r: Random)
      requires p.Lawful() && AllMedia(texts) && s2 == EnsureKey(p, s, r.key)
      requires HasRewritten(p, s, s2, Snapshot(), texts, {}, r)
      modifies this
      ensures HasRewritten(p, s, s2, Snapshot(), texts, texts.Keys, r)
    {
      var left := texts.Keys;
      ghost var done := {};
      while left != {}
        invariant forall k :: k in left ==> k in texts && k !in done
        invariant forall k :: k in texts ==> k in left || k in done
        invariant forall k :: k in done ==> k in texts
        invariant HasRewritten(p, s, s2, Snapshot(), texts, done, r)
        decreases |left|
      {
        var k :| k in left;
        RewriteOne(s, s2, texts, done, k, r);
        left, done := left - {k}, done + {k};
      }
      assert done == texts.Keys;
    }

    method RewriteOne(ghost s: State, ghost s2: State, texts: map<string, string>, ghost done: set<string>, k: string, r: Random)
      requires p.Lawful() && AllMedia(texts) && k in texts && k !in done
      requires s2 == EnsureKey(p, s, r.key) && HasRewritten(p, s, s2, Snapshot(), texts, done, r)
      modifies this
      ensures HasRewritten(p, s, s2, Snapshot(), texts, done + {k}, r)
    {
      NextRewritten(p, s, s2, Snapshot(), texts, done, k, r);
      SetItem(k, texts[k], r);
    }

    /** What the login page does on arriving without a session. */
    method WipeClientData(order: seq<string>, r: Random)
      requires p.Lawful() && ListsSecrets(order, local)
      modifies this
      ensures Snapshot() == Wipe(p, old(Snapshot()), r)
    {
      ghost var s := Snapshot();
      var texts := ReadMedia(order, r);
      ClearedHasNoSecrets(p, AfterMediaReads(p, s, r), Snapshot(), false, r.key);
      ClearSecrets();
      MediaOnly(p, s, texts, r);
      ghost var c := Snapshot();
      RewriteMedia(texts, r);
      WipeIs(p, s, c, EnsureKey(p, c, r.key), Snapshot(), texts, r);
      RemoveOthers();
    }

    /** Removes everything but what is spared, and the whole session. */
    method RemoveOthers()
      modifies this`local, this`session
      ensures Snapshot() == old(Snapshot()).(session := None, local := Rest(old(local)))
    {
      RemoveAll(set k | k in local && !IsSpared(k));
      session := None;
    }

    /** The part of logging in that touches the keys. */
    method CompleteLogin(pw: string, device: string, order: seq<string>, r: Random)
      requires ListsSecrets(order, WithBlob(p, Snapshot(), pw, device, r).local)
      modifies this
      ensures Snapshot() == Login(p, old(Snapshot()), pw, device, r)
    {
      if crypto && sodium {
        if !IsTruthy(Item(local, DEVICE_KEY)) {
          local := local[DEVICE_KEY := device];
        }
        var blob := p.wrap(r.nonce(ENCRYPTED_PASSWORD), pw, local[DEVICE_KEY]);
        if blob.Some? {
          local := local[ENCRYPTED_PASSWORD := blob.value];
          local := local - {OLD_PASSWORD};
        }
      }
      var ok := Rekey(order, r);
    }

    /** The texts collected in between are never written. */
    method ChangePassword(pw: string, order: seq<string>, r: Random) returns (ok: bool)
      modifies this
      ensures Snapshot() == RekeyToPassword(p, old(Snapshot()), pw, r)
      ensures ok ==> key == None && session == None && LOCAL_KEY !in local
    {
      var texts := CollectTexts(CurrentKey(p, Snapshot()), order);
      if !IsTruthy(Item(local, DEVICE_KEY)) || !crypto || !sodium {
        return false;
      }
      var blob := p.wrap(r.nonce(ENCRYPTED_PASSWORD), pw, local[DEVICE_KEY]);
      if blob.None? {
        return false;
      }
      local := local[ENCRYPTED_PASSWORD := blob.value];
      key, session := None, None;
      var d := Derive();
      if d.None? {
        return false;
      }
      local := local - {LOCAL_KEY};
      SealUnderCachedKey(texts, r);
      return true;
    }

    /** Sealing without a key throws, and the exception is swallowed. */
    method SealUnderCachedKey(texts: map<string, string>, r: Random)
      modifies this`local
      ensures key.None? ==> local == old(local)
    {
      var left := texts.Keys;
      while left != {}
        invariant left <= texts.Keys && (key.None? ==> local == old(local))
        decreases |left|
      {
        var k :| k in left;
        var inner := EncryptInner(p, true, key, r.nonce(k), texts[k]);
        if inner.Some? {
          local := local[k := [MAGIC] + inner.value];
        }
        left := left - {k};
      }
    }
  }
}
