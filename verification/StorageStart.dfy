/** Asking for the key again, and what a start-up makes of every entry. */
module StorageStart {
  import opened Wrappers
  import opened StorageFormats
  import opened StorageModel
  import opened StorageSafety
  import opened StorageRewriting

  // ----- Asking for the key again -----

  /** After one request the key is cached, or there is none to cache. */
  ghost predicate WasAsked(p: Primitives, s: State) {
    s.key.Some? || CurrentKey(p, s).None?
  }

  lemma AskingTwice(p: Primitives, s: State, minted: Key)
    requires p.Lawful()
    ensures WasAsked(p, EnsureKey(p, s, minted))
    ensures WasAsked(p, s) ==> EnsureKey(p, EnsureKey(p, s, minted), minted) == EnsureKey(p, s, minted)
  {
    if EnsureKey(p, s, minted).key.None? {
      AskedInVain(p, s, minted);
      AskingInVain(p, s, minted);
    } else if WasAsked(p, s) {
      FirstAskCaches(p, s, minted);
    }
  }

  /** Only a blob that cannot be opened yet leaves the page without a key. */
  lemma AskedInVain(p: Primitives, s: State, minted: Key)
    requires EnsureKey(p, s, minted).key.None?
    ensures s.key.None? && HasPasswordBootstrap(s.local) && TryDerive(p, s).None? && CurrentKey(p, s).None?
    ensures EnsureKey(p, s, minted) == s.(pending := true)
  {
  }

  lemma AskingInVain(p: Primitives, s: State, minted: Key)
    requires s.key.None? && HasPasswordBootstrap(s.local) && TryDerive(p, s).None? && CurrentKey(p, s).None?
    ensures EnsureKey(p, s.(pending := true), minted) == s.(pending := true)
    ensures CurrentKey(p, s.(pending := true)).None?
  {
    assert CurrentKey(p, s.(pending := true)) == CurrentKey(p, s);
    assert BlobToParse(p, s.(pending := true), s.local[ENCRYPTED_PASSWORD]) == BlobToParse(p, s, s.local[ENCRYPTED_PASSWORD]);
  }

  /** A key that was not merely found in the session is cached there. */
  lemma FirstAskCaches(p: Primitives, s: State, minted: Key)
    requires p.Lawful() && WasAsked(p, s) && EnsureKey(p, s, minted).key.Some?
    ensures var s' := EnsureKey(p, s, minted);
            s'.session == Some(p.btoa(s'.key.value))
  {
    if s.key.None? && HasPasswordBootstrap(s.local) {
      DerivedIsCached(p, s, minted);
    }
  }

  lemma DerivedIsCached(p: Primitives, s: State, minted: Key)
    requires s.key.None? && HasPasswordBootstrap(s.local) && CurrentKey(p, s).None? && EnsureKey(p, s, minted).key.Some?
    ensures var s' := EnsureKey(p, s, minted);
            s'.session == Some(p.btoa(s'.key.value))
  {
    assert TryDerive(p, s).Some?;
  }

  // ----- The bootstrap entries -----

  predicate IsRepaired(k: string) {
    k == DEVICE_KEY || k == ENCRYPTED_PASSWORD || k == FRIEND_CODE
  }

  predicate Encrypted(local: map<string, string>, k: string) {
    k in local && IsEncrypted(local[k])
  }

  /** The blob or the device key was encrypted by an old version. */
  predicate HiddenBootstrap(local: map<string, string>) {
    Encrypted(local, DEVICE_KEY) || Encrypted(local, ENCRYPTED_PASSWORD)
  }

  /** The key at hand from the repair of `k` on: a page that got none may draw one once the blob can never be opened. */
  ghost function KeyAt(p: Primitives, s: State, r: Random, k: string): Option<Key> {
    var first := EnsureKey(p, s, r.key).key;
    if first.Some? then first else LaterKey(s, r, k)
  }

  /** Repairing one entry, seen from the others. */
  lemma RepairEffect(p: Primitives, s: State, k: string, r: Random, j: string)
    requires j != LOCAL_KEY && k != LOCAL_KEY
    ensures var t := Repair(p, s, k, r);
            && t.sodium == s.sodium && t.initDone == s.initDone
            && Item(t.local, j) == (if j == k && Encrypted(s.local, k) then OldText(p, s.sodium, EnsureKey(p, s, r.key).key, s.local[k])
                                    else Item(s.local, j))
            && t.key == if Encrypted(s.local, k) then EnsureKey(p, s, r.key).key else s.key
  {
    if Encrypted(s.local, k) {
      var s1 := EnsureKey(p, s, r.key);
      EnsureKeyFlags(p, s, r.key);
      EnsureKeyInit(p, s, r.key);
      EnsureKeySpares(p, s, r.key, j);
      RepairIs(p, s, s1, k, r);
      EditEffect(s1.local, k, OldText(p, s1.sodium, s1.key, s.local[k]), j);
    }
  }

  lemma EnsureKeyInit(p: Primitives, s: State, minted: Key)
    ensures EnsureKey(p, s, minted).initDone == s.initDone
  {
  }

  function Edited(local: map<string, string>, k: string, text: Option<string>): map<string, string> {
    if text.Some? then local[k := text.value] else local - {k}
  }

  lemma EditEffect(local: map<string, string>, k: string, text: Option<string>, j: string)
    ensures Item(Edited(local, k, text), j) == if j == k then text else Item(local, j)
  {
  }

  lemma RepairIs(p: Primitives, s: State, s1: State, k: string, r: Random)
    requires Encrypted(s.local, k) && s1 == EnsureKey(p, s, r.key)
    ensures Repair(p, s, k, r) == s1.(local := Edited(s1.local, k, OldText(p, s1.sodium, s1.key, s.local[k])))
  {
  }

  lemma CachedStays(p: Primitives, s: State, minted: Key)
    requires s.key.Some?
    ensures EnsureKey(p, s, minted).key == s.key
  {
  }

  /** With a key, the three repairs use it and leave it. */
  lemma KeyedRepairs(p: Primitives, s: State, r: Random, j: string)
    requires s.key.Some? && j != LOCAL_KEY
    ensures var t := Repair(p, Repair(p, Repair(p, s, DEVICE_KEY, r), ENCRYPTED_PASSWORD, r), FRIEND_CODE, r);
            && t.key == s.key && t.sodium == s.sodium
            && Item(t.local, j) == if IsRepaired(j) && Encrypted(s.local, j) then OldText(p, s.sodium, s.key, s.local[j]) else Item(s.local, j)
  {
    var t1 := Repair(p, s, DEVICE_KEY, r);
    var t2 := Repair(p, t1, ENCRYPTED_PASSWORD, r);
    CachedStays(p, s, r.key);
    RepairEffect(p, s, DEVICE_KEY, r, j);
    CachedStays(p, t1, r.key);
    RepairEffect(p, t1, ENCRYPTED_PASSWORD, r, j);
    CachedStays(p, t2, r.key);
    RepairEffect(p, t2, FRIEND_CODE, r, j);
  }

  /** What a start-up has before it migrates. */
  ghost function Repaired(p: Primitives, s: State, r: Random): State {
    Repair(p, Repair(p, Repair(p, EnsureKey(p, s, r.key), DEVICE_KEY, r), ENCRYPTED_PASSWORD, r), FRIEND_CODE, r)
  }

  // ----- Without a key -----

  /** There is a blob, but it cannot be opened, and no key is cached. */
  ghost predicate Vain(p: Primitives, s: State) {
    HasPasswordBootstrap(s.local) && TryDerive(p, s).None? && CurrentKey(p, s).None? && s.pending
  }

  /** A key will be drawn when one is asked for. */
  ghost predicate WillDraw(p: Primitives, s: State) {
    !HasPasswordBootstrap(s.local) && CurrentKey(p, s).None?
  }

  lemma VainAsk(p: Primitives, s: State, minted: Key)
    requires Vain(p, s)
    ensures EnsureKey(p, s, minted) == s
  {
    AskingInVain(p, s, minted);
    assert s.(pending := true) == s;
  }

  lemma DrawingAsk(p: Primitives, s: State, minted: Key)
    requires WillDraw(p, s)
    ensures EnsureKey(p, s, minted).key == Some(minted)
  {
  }

  /** Asking in vain, a repair drops what is encrypted. */
  lemma VainRepair(p: Primitives, s: State, k: string, r: Random)
    requires Vain(p, s)
    ensures Repair(p, s, k, r) == if Encrypted(s.local, k) then s.(local := s.local - {k}) else s
  {
    VainAsk(p, s, r.key);
  }

  /** Without the blob or the device key, the next request draws a key. */
  lemma DroppedThenDraws(p: Primitives, s: State, k: string)
    requires Vain(p, s) && (k == DEVICE_KEY || k == ENCRYPTED_PASSWORD)
    ensures WillDraw(p, s.(local := s.local - {k}))
  {
    assert Item(s.local - {k}, LOCAL_KEY) == Item(s.local, LOCAL_KEY);
  }

  lemma FriendCodeIsNoKey(p: Primitives, s: State)
    requires Vain(p, s)
    ensures Vain(p, s.(local := s.local - {FRIEND_CODE}))
  {
    var t := s.(local := s.local - {FRIEND_CODE});
    assert Item(t.local, DEVICE_KEY) == Item(s.local, DEVICE_KEY);
    assert Item(t.local, ENCRYPTED_PASSWORD) == Item(s.local, ENCRYPTED_PASSWORD);
    assert Item(t.local, LOCAL_KEY) == Item(s.local, LOCAL_KEY);
    assert CurrentKey(p, t) == CurrentKey(p, s);
    assert BlobToParse(p, t, t.local[ENCRYPTED_PASSWORD]) == BlobToParse(p, s, s.local[ENCRYPTED_PASSWORD]);
  }

  /** Drawing if need be: the entry opens under the drawn key or not at all, and that key stays. */
  lemma DrawingRepair(p: Primitives, s: State, k: string, r: Random)
    requires k != LOCAL_KEY && (WillDraw(p, s) || s.key == Some(r.key))
    ensures var t := Repair(p, s, k, r);
            (t == s && !Encrypted(s.local, k)) || t.key == Some(r.key)
  {
    if WillDraw(p, s) {
      DrawingAsk(p, s, r.key);
    } else {
      CachedStays(p, s, r.key);
    }
  }

  lemma DrawingKey(p: Primitives, s: State, minted: Key)
    requires WillDraw(p, s) || s.key == Some(minted)
    ensures EnsureKey(p, s, minted).key == Some(minted)
  {
    if WillDraw(p, s) {
      DrawingAsk(p, s, minted);
    } else {
      CachedStays(p, s, minted);
    }
  }

  /** The repairs of a page without a key, from the blob on, once the device key has been dropped. */
  lemma RepairsAfterDrop(p: Primitives, s: State, r: Random, j: string)
    requires (WillDraw(p, s) || s.key == Some(r.key)) && j != LOCAL_KEY
    ensures var t := Repair(p, Repair(p, s, ENCRYPTED_PASSWORD, r), FRIEND_CODE, r);
            && (WillDraw(p, t) || t.key == Some(r.key)) && t.sodium == s.sodium
            && Item(t.local, j) == if (j == ENCRYPTED_PASSWORD || j == FRIEND_CODE) && Encrypted(s.local, j)
                                   then OldText(p, s.sodium, Some(r.key), s.local[j]) else Item(s.local, j)
  {
    var t1 := Repair(p, s, ENCRYPTED_PASSWORD, r);
    DrawingKey(p, s, r.key);
    DrawingRepair(p, s, ENCRYPTED_PASSWORD, r);
    RepairEffect(p, s, ENCRYPTED_PASSWORD, r, j);
    FriendAfterDrop(p, t1, r, j);
  }

  lemma FriendAfterDrop(p: Primitives, s: State, r: Random, j: string)
    requires (WillDraw(p, s) || s.key == Some(r.key)) && j != LOCAL_KEY
    ensures var t := Repair(p, s, FRIEND_CODE, r);
            && (WillDraw(p, t) || t.key == Some(r.key)) && t.sodium == s.sodium
            && Item(t.local, j) == if j == FRIEND_CODE && Encrypted(s.local, j)
                                   then OldText(p, s.sodium, Some(r.key), s.local[j]) else Item(s.local, j)
  {
    DrawingKey(p, s, r.key);
    DrawingRepair(p, s, FRIEND_CODE, r);
    RepairEffect(p, s, FRIEND_CODE, r, j);
  }

  /** The repairs of a page without a key. */
  lemma KeylessRepairs(p: Primitives, s: State, r: Random, j: string)
    requires Vain(p, s) && j != LOCAL_KEY
    ensures var t := Repair(p, Repair(p, Repair(p, s, DEVICE_KEY, r), ENCRYPTED_PASSWORD, r), FRIEND_CODE, r);
            && t.sodium == s.sodium
            && (if HiddenBootstrap(s.local) then WillDraw(p, t) || t.key == Some(r.key) else Vain(p, t))
            && Item(t.local, j) == if IsRepaired(j) && Encrypted(s.local, j)
                                   then OldText(p, s.sodium, LaterKey(s, r, j), s.local[j]) else Item(s.local, j)
  {
    VainRepair(p, s, DEVICE_KEY, r);
    if Encrypted(s.local, DEVICE_KEY) {
      DroppedThenDraws(p, s, DEVICE_KEY);
      RepairsAfterDrop(p, s.(local := s.local - {DEVICE_KEY}), r, j);
    } else {
      VainRepair(p, s, ENCRYPTED_PASSWORD, r);
      if Encrypted(s.local, ENCRYPTED_PASSWORD) {
        DroppedThenDraws(p, s, ENCRYPTED_PASSWORD);
        FriendAfterDrop(p, s.(local := s.local - {ENCRYPTED_PASSWORD}), r, j);
      } else {
        VainRepair(p, s, FRIEND_CODE, r);
        FriendCodeIsNoKey(p, s);
      }
    }
  }

  /** The key at hand when the page got none at first. */
  function LaterKey(s: State, r: Random, k: string): Option<Key> {
    if k == DEVICE_KEY then None
    else if k == ENCRYPTED_PASSWORD then (if Encrypted(s.local, DEVICE_KEY) then Some(r.key) else None)
    else if HiddenBootstrap(s.local) then Some(r.key)
    else None
  }

  // ----- What a start-up leaves -----

  lemma VainAfterAsking(p: Primitives, s: State, minted: Key)
    requires EnsureKey(p, s, minted).key.None?
    ensures Vain(p, EnsureKey(p, s, minted)) && EnsureKey(p, s, minted).local == s.local
  {
    AskedInVain(p, s, minted);
    assert CurrentKey(p, s.(pending := true)) == CurrentKey(p, s);
    assert BlobToParse(p, s.(pending := true), s.local[ENCRYPTED_PASSWORD]) == BlobToParse(p, s, s.local[ENCRYPTED_PASSWORD]);
  }

  lemma RepairsLeave(p: Primitives, s: State, r: Random, j: string)
    requires j != LOCAL_KEY
    ensures var t := Repaired(p, s, r);
            && t.sodium == s.sodium && EnsureKey(p, t, r.key).key == KeyAt(p, s, r, FRIEND_CODE)
            && Item(t.local, j) == if IsRepaired(j) && Encrypted(s.local, j)
                                   then OldText(p, s.sodium, KeyAt(p, s, r, j), s.local[j]) else Item(s.local, j)
  {
    var s1 := EnsureKey(p, s, r.key);
    EnsureKeyFlags(p, s, r.key);
    EnsureKeySpares(p, s, r.key, j);
    if s1.key.Some? {
      KeyedRepairs(p, s1, r, j);
      CachedStays(p, Repaired(p, s, r), r.key);
    } else {
      VainAfterAsking(p, s, r.key);
      KeylessRepairs(p, s1, r, j);
      if HiddenBootstrap(s.local) {
        DrawingKey(p, Repaired(p, s, r), r.key);
      } else {
        VainAsk(p, Repaired(p, s, r), r.key);
      }
    }
  }

  lemma MigrationLeaves(p: Primitives, s: State, r: Random, j: string)
    requires j != LOCAL_KEY
    ensures Item(Migrate(p, s, r).local, j) ==
            if IsPlainSecret(s.local, j) then Some(Stored(p, s.sodium, EnsureKey(p, s, r.key).key, r.nonce(j), s.local[j]))
            else Item(s.local, j)
  {
    EnsureKeyFlags(p, s, r.key);
    EnsureKeySpares(p, s, r.key, j);
    var s1 := EnsureKey(p, s, r.key);
    assert IsPlainSecret(s1.local, j) <==> IsPlainSecret(s.local, j);
  }

  /**
    Every entry after a start-up, but the random key: an encrypted bootstrap
    entry shows what it hides under the key then at hand, and is gone if it
    shows nothing; a plain secret is stored anew under the key at hand at the
    end; all else is as it was.
  */
  lemma StartLeaves(p: Primitives, s: State, r: Random, j: string)
    requires !s.initDone && j != LOCAL_KEY
    ensures Item(SecInit(p, s, r).local, j) ==
            if IsRepaired(j) && Encrypted(s.local, j) then OldText(p, s.sodium, KeyAt(p, s, r, j), s.local[j])
            else if IsPlainSecret(s.local, j) then Some(Stored(p, s.sodium, KeyAt(p, s, r, FRIEND_CODE), r.nonce(j), s.local[j]))
            else Item(s.local, j)
  {
    RepairsLeave(p, s, r, j);
    MigrationLeaves(p, Repaired(p, s, r), r, j);
    StartIs(p, s, r);
    assert IsPlainSecret(Repaired(p, s, r).local, j) <==> IsPlainSecret(s.local, j);
  }

  lemma StartIs(p: Primitives, s: State, r: Random)
    requires !s.initDone
    ensures SecInit(p, s, r).local == Migrate(p, Repaired(p, s, r), r).local && SecInit(p, s, r).initDone
  {
  }

  /** One start-up per page is all that happens. */
  lemma StartsOnce(p: Primitives, s: State, r: Random, r': Random)
    ensures SecInit(p, SecInit(p, s, r), r') == SecInit(p, s, r)
  {
  }

  /**
    A bootstrap entry that hides `v` in the current format comes back if and
    only if libsodium is there and the key at hand is its own; else it is
    removed.
  */
  lemma SealedBootstrapIff(p: Primitives, s: State, r: Random, k: string, own: Key, n: Nonce, v: string)
    requires p.Lawful() && !s.initDone && IsRepaired(k) && Storable(v) && Item(s.local, k) == Some([MAGIC] + SealV2(p, own, n, v))
    ensures Item(SecInit(p, s, r).local, k) == if s.sodium && KeyAt(p, s, r, k) == Some(own) then Some(v) else None
  {
    var raw, key := s.local[k], KeyAt(p, s, r, k);
    StartLeaves(p, s, r, k);
    FormatsAreDisjoint(p, own, n, v);
    assert raw[1..] == SealV2(p, own, n, v);
    if key.Some? {
      V2Opens(p, own, key.value, n, v);
    }
  }

  /** One in the format of old versions comes back if and only if the key at hand passes its tag. */
  lemma TaggedBootstrapIff(p: Primitives, s: State, r: Random, k: string, own: Key, v: string)
    requires p.Lawful() && !s.initDone && IsRepaired(k) && Storable(v) && Item(s.local, k) == Some([MAGIC] + Tagged(p, own, v))
    requires KeyAt(p, s, r, k).Some? ==> TellsApart(p, v, own, KeyAt(p, s, r, k).value)
    ensures var key, after := KeyAt(p, s, r, k), Item(SecInit(p, s, r).local, k);
            && (after == Some(v) <==> key.Some? && Shows(p, own, key.value, v))
            && (after == None <==> !(key.Some? && Shows(p, own, key.value, v)))
            && (key == Some(own) ==> after == Some(v))
  {
    var raw, key := s.local[k], KeyAt(p, s, r, k);
    StartLeaves(p, s, r, k);
    FormatsAreDisjoint(p, own, seq(24, i => 0 as bv8), v);
    assert raw[1..] == Tagged(p, own, v);
    if key.Some? {
      TaggedOpens(p, own, key.value, v);
    }
  }

  /** The bytes of a text hidden under one key show a text of the same tag under another. */
  ghost predicate Shows(p: Primitives, own: Key, tried: Key, v: string) {
    p.tag(p.decode(Xor(Xor(p.encode(v), own), tried))) == p.tag(v)
  }

  /** With a key at hand, no secret is left plain. */
  lemma StartLeavesNothingPlain(p: Primitives, s: State, r: Random, j: string)
    requires !s.initDone && IsSensitive(j) && KeyAt(p, s, r, FRIEND_CODE).Some? && j in SecInit(p, s, r).local
    ensures IsEncrypted(SecInit(p, s, r).local[j])
  {
    StartLeaves(p, s, r, j);
  }

  /** When the blob and the device key come back, so does the key they derive, as soon as it can be derived. */
  lemma RestoredBlobDerives(p: Primitives, s: State, r: Random, n: Nonce, pw: string, device: string)
    requires p.Lawful() && pw != "" && device != "" && p.wrap(n, pw, device).Some?
    requires Item(SecInit(p, s, r).local, DEVICE_KEY) == Some(device)
    requires Item(SecInit(p, s, r).local, ENCRYPTED_PASSWORD) == p.wrap(n, pw, device)
    ensures TryDerive(p, SecInit(p, s, r).(sodium := true, crypto := true)) == Some(p.stretch(pw))
  {
    assert p.IsWrapping(p.wrap(n, pw, device).value, pw, device);
  }

  /** Before that, a blob that is still encrypted under the key at hand already derives the same key. */
  lemma EncryptedBlobDerives(p: Primitives, s: State, own: Key, n: Nonce, pw: string, device: string)
    requires p.Lawful() && pw != "" && device != "" && p.wrap(n, pw, device).Some? && Storable(p.wrap(n, pw, device).value)
    requires s.sodium && s.crypto && CurrentKey(p, s) == Some(own) && Item(s.local, DEVICE_KEY) == Some(device)
    requires Item(s.local, ENCRYPTED_PASSWORD) == Some([MAGIC] + Tagged(p, own, p.wrap(n, pw, device).value))
    ensures TryDerive(p, s) == Some(p.stretch(pw))
  {
    var blob, raw := p.wrap(n, pw, device).value, s.local[ENCRYPTED_PASSWORD];
    assert p.IsWrapping(blob, pw, device);
    FormatsAreDisjoint(p, own, n, blob);
    TaggedOpens(p, own, own, blob);
    assert raw[1..] == Tagged(p, own, blob);
    assert DecryptInner(p, true, Some(own), raw[1..]) == DecryptLegacy(p, Some(own), raw[1..]);
  }

  /** A key cached for the tab is used rather than the random key in storage. */
  lemma SessionKeyOpens(p: Primitives, s: State, own: Key, k: string, v: string, r: Random)
    requires p.Lawful() && !HasPasswordBootstrap(s.local) && s.key == None && s.session == Some(p.btoa(own))
    requires IsSensitive(k) && k in s.local && Hides(p, own, s.local[k], v) && Storable(v) && (s.sodium || !IsV2(s.local[k][1..]))
    ensures Get(p, s, k, r) == Some(v)
  {
    KeyFromStored(p, own);
    OpensUnderOwn(p, own, s.local[k], v);
    assert EnsureKey(p, s, r.key).key == Some(own);
  }

  // ----- Once libsodium is ready -----

  /** A secret written with libsodium there is in the current format. */
  lemma StoredIsV2(p: Primitives, key: Key, nonce: Nonce, v: string)
    requires p.Lawful()
    ensures var raw := Stored(p, true, Some(key), nonce, v);
            IsEncrypted(raw) && IsV2(raw[1..])
  {
    FormatsAreDisjoint(p, key, nonce, v);
    assert ([MAGIC] + SealV2(p, key, nonce, v))[1..] == SealV2(p, key, nonce, v);
  }

  /**
    The ready handler, with a key at hand and no invalid entry: whatever the key
    can read among the secrets is in the current format afterwards, and on a page
    that starts up only then nothing is left plain.
  */
  lemma ReadyHandlerSeals(p: Primitives, s: State, order: seq<string>, r: Random, key: Key, k: string)
    requires p.Lawful() && s.sodium && IsSensitive(k) && k in s.local && k in order
    requires CurrentKey(p, if s.pending then Redrive(p, s) else s) == Some(key)
    requires !UpgradeToAead(p, if s.pending then Redrive(p, s) else s, order, r).threw
    ensures var t := SodiumCallback(p, s, order, r);
            && k in t.local
            && (IsEncrypted(t.local[k]) && View(p, key, t.local[k]).Some? ==> IsV2(t.local[k][1..]))
            && (!s.initDone ==> IsEncrypted(t.local[k]))
  {
    var s1 := if s.pending then Redrive(p, s) else s;
    var up := UpgradeToAead(p, s1, order, r);
    RedriveSpares(p, s, k);
    UpgradedForm(p, s1.local, order, key, r, k);
    UpgradeSparesKeys(p, s1, order, r);
    CurrentIsKept(p, s1.(local := up.local), r);
    AfterUpgrade(p, s1.(local := up.local), r, key, k);
  }

  lemma UpgradedForm(p: Primitives, local: map<string, string>, order: seq<string>, key: Key, r: Random, k: string)
    requires p.Lawful() && IsSensitive(k) && k in local && k in order && !UpgradeFrom(p, local, order, key, r).threw
    ensures var after := UpgradeFrom(p, local, order, key, r).local;
            k in after && (IsEncrypted(after[k]) && View(p, key, after[k]).Some? ==> IsV2(after[k][1..]))
  {
    var after := UpgradeFrom(p, local, order, key, r).local;
    UpgradePreservesView(p, local, order, key, r, k);
    if !IsEncrypted(local[k]) {
      assert Settled(p, local[k], key);
      UpgradeTouches(p, local, order, key, r, k);
      assert Item(after, k) == Item(local, k);
    }
  }

  lemma UpgradeSparesKeys(p: Primitives, s: State, order: seq<string>, r: Random)
    requires p.Lawful() && CurrentKey(p, s).Some?
    ensures CurrentKey(p, s.(local := UpgradeToAead(p, s, order, r).local)) == CurrentKey(p, s)
  {
    if s.sodium {
      UpgradeTouches(p, s.local, order, CurrentKey(p, s).value, r, LOCAL_KEY);
    }
    assert Item(UpgradeToAead(p, s, order, r).local, LOCAL_KEY) == Item(s.local, LOCAL_KEY);
  }

  lemma RedriveSpares(p: Primitives, s: State, k: string)
    requires k != LOCAL_KEY
    ensures var t := Redrive(p, s);
            Item(t.local, k) == Item(s.local, k) && t.sodium == s.sodium && t.initDone == s.initDone
  {
  }

  lemma AfterUpgrade(p: Primitives, s: State, r: Random, key: Key, k: string)
    requires p.Lawful() && s.sodium && IsSensitive(k) && k in s.local
    requires IsEncrypted(s.local[k]) && View(p, key, s.local[k]).Some? ==> IsV2(s.local[k][1..])
    requires !s.initDone ==> KeyAt(p, s, r, FRIEND_CODE).Some?
    ensures var t := SecInit(p, s, r);
            && k in t.local
            && (IsEncrypted(t.local[k]) && View(p, key, t.local[k]).Some? ==> IsV2(t.local[k][1..]))
            && (!s.initDone ==> IsEncrypted(t.local[k]))
  {
    if !s.initDone {
      StartLeaves(p, s, r, k);
      StoredIsV2(p, KeyAt(p, s, r, FRIEND_CODE).value, r.nonce(k), s.local[k]);
    }
  }

  lemma CurrentIsKept(p: Primitives, s: State, r: Random)
    requires CurrentKey(p, s).Some?
    ensures EnsureKey(p, s, r.key).key.Some?
  {
  }

  // ----- Reading, deriving and leaving the page -----

  /** Reading asks for the key once and for all: a second read gives what the first one gave. */
  lemma ReadsAgree(p: Primitives, s: State, k: string, r: Random, r': Random)
    ensures Get(p, AfterGet(p, s, k, r), k, r') == Get(p, s, k, r)
  {
    if IsSensitive(k) && Encrypted(s.local, k) {
      var s1 := EnsureKey(p, s, r.key);
      EnsureKeySpares(p, s, r.key, k);
      EnsureKeyFlags(p, s, r.key);
      if s1.key.Some? {
        CachedStays(p, s1, r'.key);
      } else {
        VainAfterAsking(p, s, r.key);
        VainAsk(p, s1, r'.key);
      }
    }
  }

  /** A legacy value whose base64 text is invalid comes back as it is stored. */
  lemma InvalidComesBack(p: Primitives, s: State, k: string, inner: string, r: Random)
    requires IsSensitive(k) && Item(s.local, k) == Some([MAGIC] + inner) && inner != "" && !IsV2(inner) && !IsTagged(inner)
    requires p.atob(inner) == None && EnsureKey(p, s, r.key).key.Some?
    ensures Get(p, s, k, r) == Item(s.local, k)
  {
    assert s.local[k][1..] == inner;
  }

  /** A blob that is not two parts of ten characters or more around one colon derives nothing. */
  lemma MalformedBlobDerivesNothing(p: Primitives, s: State, blob: string, i: nat, j: nat)
    requires Item(s.local, ENCRYPTED_PASSWORD) == Some(blob) && !IsEncrypted(blob)
    requires ':' !in blob || (i < |blob| && blob[i] == ':' && (i < 10 || |blob| - i <= 10 || (i < j < |blob| && blob[j] == ':')))
    ensures TryDerive(p, s) == None
  {
    forall c | IsOnlyColon(blob, c)
      ensures !(10 <= c <= |blob| - 11)
    {
      if i < |blob| && blob[i] == ':' {
        OnlyOneColon(blob, c, i);
      }
      if j < |blob| && blob[j] == ':' {
        OnlyOneColon(blob, c, j);
      }
    }
  }

  lemma OnlyOneColon(s: string, c: int, k: nat)
    requires IsOnlyColon(s, c) && k < |s| && s[k] == ':'
    ensures k == c
  {
  }

  /** Deriving again puts the derived key in place of all others, and is then no longer wanted. */
  lemma RedriveReplaces(p: Primitives, s: State)
    ensures var t, d := Redrive(p, s), TryDerive(p, s);
            if d.Some? then t.key == d && t.session == Some(p.btoa(d.value)) && LOCAL_KEY !in t.local && !t.pending
            else t == s
  {
  }

  /** A page opened in a new tab starts from what is in storage alone. */
  lemma NewTabForgets(p: Primitives, s: State, session: Option<string>, key: Option<Key>, sodium: bool, crypto: bool, e: Event)
    requires e.action == Load(false, sodium, crypto)
    ensures Step(p, s.(session := session, key := key), e) == Step(p, s, e)
  {
  }

  /** A page opened again in the same tab goes on with the key of the session, where no password decides. */
  lemma SameTabRemembers(p: Primitives, s: State, own: Key, sodium: bool, crypto: bool, e: Event)
    requires p.Lawful() && e.action == Load(true, sodium, crypto)
    requires !HasPasswordBootstrap(s.local) && s.session == Some(p.btoa(own))
    ensures EnsureKey(p, NewPage(s, true, sodium, crypto), e.random.key).key == Some(own)
    ensures forall j :: j != LOCAL_KEY && IsSensitive(j) && IsPlainSecret(s.local, j) ==>
              Item(Step(p, s, e).local, j) == Some(Stored(p, sodium, Some(own), e.random.nonce(j), s.local[j]))
  {
    var s0 := NewPage(s, true, sodium, crypto);
    KeyFromStored(p, own);
    forall j | j != LOCAL_KEY && IsSensitive(j) && IsPlainSecret(s.local, j)
      ensures Item(Step(p, s, e).local, j) == Some(Stored(p, sodium, Some(own), e.random.nonce(j), s.local[j]))
    {
      StartLeaves(p, s0, e.random, j);
    }
  }
}
