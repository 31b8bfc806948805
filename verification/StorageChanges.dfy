/** A changed password, with a rekey in time and without one. */
module StorageChanges {
  import opened Wrappers
  import opened StorageFormats
  import opened StorageModel
  import opened StorageSafety
  import opened StorageRewriting
  import opened StorageKeys

  // ----- Changing the password -----

  /** Changing the password keeps a v2 entry readable only if the new password derives the old key. */
  lemma PasswordChangeKeepsEntryIff(p: Primitives, values: set<string>, s: State, log: map<string, string>, key: Key,
                                    pw: string, r: Random, k: string, r': Random)
    requires p.Lawful() && (forall v :: v in values ==> Storable(v))
    requires OneKey(p, values, s, log, key) && pw != "" && ChangedBlob(p, s, pw, r).Some?
    requires k in s.local && IsSensitive(k) && (IsEncrypted(s.local[k]) ==> IsV2(s.local[k][1..]))
    ensures var kept := p.stretch(pw) == key || !IsEncrypted(s.local[k]);
            && (Get(p, RekeyToPassword(p, s, pw, r), k, r') == Item(log, k) <==> kept)
            && (Get(p, RekeyToPassword(p, s, pw, r), k, r') == None <==> !kept)
  {
    var raw, d, s' := s.local[k], p.stretch(pw), RekeyToPassword(p, s, pw, r);
    assert Matches(p, World({key}, values), k, Item(s.local, k), Item(log, k));
    ChangedBlobDerives(p, s, pw, r);
    EnsureKeyChoices(p, s', r'.key);
    assert Item(s'.local, k) == Item(s.local, k);
    if raw != log[k] {
      if d == key {
        OpensUnderOwn(p, key, raw, log[k]);
      } else {
        AnotherKeyFails(p, key, d, raw, log[k]);
      }
    }
  }

  /**
    With both libraries and a device key the new password takes hold: the blob
    derives its key, and every other key is dropped. Without them nothing
    happens.
  */
  lemma PasswordChangeTakesHold(p: Primitives, s: State, pw: string, r: Random)
    requires p.Lawful() && BootstrapIsSound(s.local) && pw != ""
    requires forall n: Nonce, device: string :: p.wrap(n, pw, device).Some?
    ensures var s' := RekeyToPassword(p, s, pw, r);
            if s.crypto && s.sodium && IsTruthy(Item(s.local, DEVICE_KEY))
            then TryDerive(p, s') == Some(p.stretch(pw)) && s'.key == None && s'.session == None && LOCAL_KEY !in s'.local
            else s' == s
  {
    if ChangedBlob(p, s, pw, r).Some? {
      ChangedBlobDerives(p, s, pw, r);
      TryDeriveIs(p, RekeyToPassword(p, s, pw, r));
    }
  }

  lemma SamePasswordChangeKeepsKey(p: Primitives, values: set<string>, s: State, log: map<string, string>, key: Key, pw: string, r: Random)
    requires p.Lawful() && OneKey(p, values, s, log, key) && pw != ""
    requires ChangedBlob(p, s, pw, r).Some? ==> Derived(p, s.local) == Some(p.stretch(pw))
    ensures OneKey(p, values, RekeyToPassword(p, s, pw, r), log, key)
  {
    if ChangedBlob(p, s, pw, r).Some? {
      ChangedBlobDerives(p, s, pw, r);
      PasswordChangeKeeps(p, World({key}, values), s, log, pw, r);
    }
  }

  // ----- Storing a password without a rekey -----

  lemma SameBlobKeepsKey(p: Primitives, values: set<string>, s: State, log: map<string, string>, key: Key,
                         pw: string, device: string, r: Random)
    requires p.Lawful() && OneKey(p, values, s, log, key) && MayLogin(pw, device)
    requires NewBlob(p, s, pw, device, r).Some? ==> Derived(p, s.local) == Some(p.stretch(pw))
    ensures var log' := if NewBlob(p, s, pw, device, r).Some? then log - {OLD_PASSWORD} else log;
            OneKey(p, values, WithBlob(p, s, pw, device, r), log', key)
  {
    var w, t := World({key}, values), WithBlob(p, s, pw, device, r);
    WithBlobEntries(p, w, s, log, pw, device, r);
    if NewBlob(p, s, pw, device, r).Some? {
      WithBlobKeeps(p, w, s, log, pw, device, r);
      NewBlobDerives(p, s, pw, device, r);
      assert Item(t.local, LOCAL_KEY) == Item(s.local, LOCAL_KEY);
    } else {
      NoBlobDerives(p, s, pw, device, r);
    }
  }

  /** A page load, up to the point where libsodium has become ready. */
  ghost function Started(p: Primitives, s: State, keep: bool, sodium: bool, order: seq<string>, r: Random): State {
    var s1 := SecInit(p, NewPage(s, keep, sodium, true), r);
    if sodium then s1 else SodiumCallback(p, s1.(sodium := true), order, r)
  }

  /** What the load alone leaves: the key of the blob if libsodium was there, else whatever was cached. */
  lemma LoadedWithBlob(p: Primitives, w: World, s0: State, log: map<string, string>, r: Random)
    requires p.Lawful() && (forall v :: v in w.values ==> Storable(v)) && Entries(p, w, s0.local, log) && BootstrapIsSound(s0.local)
    requires s0.key == None && s0.crypto && !s0.initDone && Derived(p, s0.local).Some?
    ensures var s1 := SecInit(p, s0, r);
            && s1.key == (if s0.sodium then Derived(p, s0.local) else CurrentKey(p, s0))
            && s1.sodium == s0.sodium && s1.crypto && s1.initDone && (!s0.sodium ==> s1.pending)
            && BootstrapIsSound(s1.local) && HasPasswordBootstrap(s1.local) && Derived(p, s1.local) == Derived(p, s0.local)
            && (forall k {:trigger Item(s1.local, k)} :: !IsInternal(k) ==>
                  (Item(s1.local, k) == if IsPlainSecret(s0.local, k) then Some(Stored(p, s0.sodium, s1.key, r.nonce(k), s0.local[k])) else Item(s0.local, k)))
  {
    var s1 := EnsureKey(p, s0, r.key);
    EnsureKeyChoices(p, s0, r.key);
    assert SameBut(s0.local, s1.local, LOCAL_KEY);
    LocalKeyOnly(p, s0.local, s1.local);
    EntriesSameBut(p, w, s0.local, s1.local, log);
    NothingToRepair(p, w, s1, log, r);
    MigratedIs(p, s1, r);
  }

  lemma MigratedIs(p: Primitives, s: State, r: Random)
    requires BootstrapIsSound(s.local) && HasPasswordBootstrap(s.local) && s.crypto
    requires s.key.Some? || (CurrentKey(p, s).None? && !s.sodium)
    ensures var s' := Migrate(p, s, r);
            && s'.key == s.key && s'.sodium == s.sodium && s'.crypto && (s.pending ==> s'.pending)
            && s'.local == Migrated(p, s, r)
  {
    TryDeriveIs(p, s);
    if !exists k :: IsPlainSecret(s.local, k) {
      assert Migrated(p, s, r) == s.local;
    }
  }

  /** After the load, one entry has been through the migration and the upgrade. */
  lemma StartedEntry(p: Primitives, w: World, s: State, log: map<string, string>, keep: bool, sodium: bool,
                     order: seq<string>, r: Random, k: string)
    requires p.Lawful() && (forall v :: v in w.values ==> Storable(v)) && Entries(p, w, s.local, log) && BootstrapIsSound(s.local)
    requires Derived(p, s.local).Some? && !IsInternal(k) && k in s.local
    ensures var s0 := NewPage(s, keep, sodium, true);
            var u, d := Started(p, s, keep, sodium, order, r), Derived(p, s.local).value;
            var found := if sodium then Some(d) else CurrentKey(p, s0);
            var raw := if IsPlainSecret(s.local, k) then Stored(p, sodium, found, r.nonce(k), s.local[k]) else s.local[k];
            u.key == Some(d) && u.sodium && k in u.local && Upgraded(p, raw, u.local[k], d)
  {
    var s0 := NewPage(s, keep, sodium, true);
    var s1, d := SecInit(p, s0, r), Derived(p, s.local).value;
    LoadedWithBlob(p, w, s0, log, r);
    assert Item(s1.local, k).Some?;
    if !sodium {
      ReadyAfterLoad(p, s1.(sodium := true), order, r, k, d);
    }
  }

  lemma ReadyAfterLoad(p: Primitives, s: State, order: seq<string>, r: Random, k: string, d: Key)
    requires p.Lawful() && s.pending && s.sodium && s.crypto && s.initDone && BootstrapIsSound(s.local)
    requires Derived(p, s.local) == Some(d) && !IsInternal(k) && k in s.local
    ensures var u := SodiumCallback(p, s, order, r);
            u.key == Some(d) && u.sodium && k in u.local && Upgraded(p, s.local[k], u.local[k], d)
  {
    TryDeriveIs(p, s);
    var s1 := Redrive(p, s);
    UpgradeUpgrades(p, s1.local, order, d, r, k);
  }

  /** The bytes of a text hidden by XOR under one key pass the tag's check under another. */
  ghost predicate TagsAgree(p: Primitives, text: string, key: Key, tried: Key) {
    p.tag(p.decode(Xor(Xor(p.encode(text), key), tried))) == p.tag(text)
  }

  /**
    A password is stored without a rekey. Once the next page load has found
    its way to the new key, a v2 entry reads back if and only if that is the old
    key. A plain entry reads back unless the load, with libsodium still
    missing, first hides it under the old key from the cache.
  */
  lemma StoredPasswordKeepsEntryIff(p: Primitives, values: set<string>, s: State, log: map<string, string>, key: Key,
                                    pw: string, device: string, r: Random, keep: bool, sodium: bool, order: seq<string>, r': Random,
                                    k: string, r'': Random)
    requires p.Lawful() && (forall v :: v in values ==> Storable(v))
    requires OneKey(p, values, s, log, key) && MayLogin(pw, device) && NewBlob(p, s, pw, device, r).Some?
    requires k in s.local && IsSensitive(k) && k != OLD_PASSWORD && (IsEncrypted(s.local[k]) ==> IsV2(s.local[k][1..]))
    requires k in log && TellsApart(p, log[k], key, p.stretch(pw))
    ensures var t, d := WithBlob(p, s, pw, device, r), p.stretch(pw);
            var cached := CurrentKey(p, NewPage(t, keep, sodium, true));
            var kept := if IsEncrypted(s.local[k]) then d == key else sodium || cached.None? || TagsAgree(p, log[k], key, d);
            var u := Started(p, t, keep, sodium, order, r');
            && (Get(p, u, k, r'') == Item(log, k) <==> kept)
            && (Get(p, u, k, r'') == None <==> !kept)
  {
    var w, t, d := World({key}, values), WithBlob(p, s, pw, device, r), p.stretch(pw);
    assert Matches(p, w, k, Item(s.local, k), Item(log, k));
    BlobIsStored(p, w, s, log, key, pw, device, r, keep, sodium, k);
    ReloadedEntry(p, w, t, log - {OLD_PASSWORD}, key, d, keep, sodium, order, r', k, s.local[k], log[k], r'');
  }

  /** All that matters about the state once the blob is stored. */
  lemma BlobIsStored(p: Primitives, w: World, s: State, log: map<string, string>, key: Key, pw: string, device: string, r: Random,
                     keep: bool, sodium: bool, k: string)
    requires p.Lawful() && w.keys == {key} && Inv(p, w, s, log) && MayLogin(pw, device) && NewBlob(p, s, pw, device, r).Some?
    requires IsSensitive(k) && k != OLD_PASSWORD
    ensures var t := WithBlob(p, s, pw, device, r);
            && Entries(p, w, t.local, log - {OLD_PASSWORD}) && BootstrapIsSound(t.local) && Derived(p, t.local) == Some(p.stretch(pw))
            && Item(t.local, k) == Item(s.local, k)
            && CurrentKey(p, NewPage(t, keep, sodium, true)) in {None, Some(key)}
  {
    var t := WithBlob(p, s, pw, device, r);
    WithBlobEntries(p, w, s, log, pw, device, r);
    WithBlobSound(p, s, pw, device, r);
    CachedIsOld(p, s, t, keep, sodium, key);
  }

  lemma ReloadedEntry(p: Primitives, w: World, t: State, log: map<string, string>, key: Key, d: Key, keep: bool, sodium: bool,
                      order: seq<string>, r: Random, k: string, raw: string, v: string, r': Random)
    requires p.Lawful() && (forall x :: x in w.values ==> Storable(x)) && Entries(p, w, t.local, log) && BootstrapIsSound(t.local)
    requires Derived(p, t.local) == Some(d) && IsSensitive(k) && Item(t.local, k) == Some(raw)
    requires Storable(v) && (raw == v || Hides(p, key, raw, v)) && (IsEncrypted(raw) ==> IsV2(raw[1..])) && TellsApart(p, v, key, d)
    requires CurrentKey(p, NewPage(t, keep, sodium, true)) in {None, Some(key)}
    ensures var cached := CurrentKey(p, NewPage(t, keep, sodium, true));
            var kept := if IsEncrypted(raw) then d == key else sodium || cached.None? || TagsAgree(p, v, key, d);
            Get(p, Started(p, t, keep, sodium, order, r), k, r') == if kept then Some(v) else None
  {
    var s0 := NewPage(t, keep, sodium, true);
    var found := if sodium then Some(d) else CurrentKey(p, s0);
    StartedEntry(p, w, t, log, keep, sodium, order, r, k);
    EntryUnder(p, key, d, raw, v, sodium, found, r.nonce(k));
    ReadsView(p, Started(p, t, keep, sodium, order, r), d, k, r');
  }

  lemma CachedIsOld(p: Primitives, s: State, t: State, keep: bool, sodium: bool, key: Key)
    requires Known(World({key}, {}), KeyFrom(p, s.session)) && Known(World({key}, {}), KeyFrom(p, Item(s.local, LOCAL_KEY)))
    requires t.session == s.session && Item(t.local, LOCAL_KEY) == Item(s.local, LOCAL_KEY)
    ensures CurrentKey(p, NewPage(t, keep, sodium, true)) in {None, Some(key)}
  {
  }

  /** An entry of the old key, after the migration of the load, as the new key sees it. */
  lemma EntryUnder(p: Primitives, key: Key, d: Key, raw: string, v: string, sodium: bool, found: Option<Key>, nonce: Nonce)
    requires p.Lawful() && Storable(v) && (raw == v || Hides(p, key, raw, v)) && (IsEncrypted(raw) ==> IsV2(raw[1..]))
    requires TellsApart(p, v, key, d)
    requires if sodium then found == Some(d) else found in {None, Some(key)}
    ensures var now := if IsEncrypted(raw) then raw else Stored(p, sodium, found, nonce, raw);
            if if IsEncrypted(raw) then d == key else sodium || found.None? || TagsAgree(p, v, key, d)
            then View(p, d, now) == Some(v)
            else IsEncrypted(now) && DecryptInner(p, true, Some(d), now[1..]) == Unreadable
  {
    if IsEncrypted(raw) {
      if d == key {
        OpensUnderOwn(p, key, raw, v);
      } else {
        AnotherKeyFails(p, key, d, raw, v);
      }
    } else {
      assert Hides(p, key, raw, v) ==> raw == v by {
        if Hides(p, key, raw, v) {
          OpensUnderOwn(p, key, raw, v);
        }
      }
      PlainUnder(p, key, d, v, sodium, found, nonce);
    }
  }

  lemma PlainUnder(p: Primitives, key: Key, d: Key, v: string, sodium: bool, found: Option<Key>, nonce: Nonce)
    requires p.Lawful() && Storable(v) && TellsApart(p, v, key, d)
    requires if sodium then found == Some(d) else found in {None, Some(key)}
    ensures var now := Stored(p, sodium, found, nonce, v);
            if sodium || found.None? || TagsAgree(p, v, key, d)
            then View(p, d, now) == Some(v)
            else IsEncrypted(now) && DecryptInner(p, true, Some(d), now[1..]) == Unreadable
  {
    var now := Stored(p, sodium, found, nonce, v);
    if sodium {
      SealedShows(p, d, nonce, v);
    } else if found == Some(key) {
      TaggedOpens(p, key, d, v);
      assert now[1..] == Tagged(p, key, v);
    } else if now != v {
      assert Xor(p.encode(v), d) == [];
      assert Hides(p, d, now, v);
      OpensUnderOwn(p, d, now, v);
    }
  }

  // ----- Storing a password, and a rekey in time -----

  /** The blob already wraps another password, but the page goes on with the old key. */
  ghost predicate Between(p: Primitives, values: set<string>, s: State, log: map<string, string>, key: Key, d: Key) {
    && Entries(p, World({key}, values), s.local, log)
    && s.key == Some(key) && s.sodium && s.crypto
    && BootstrapIsSound(s.local) && Derived(p, s.local) == Some(d)
  }

  predicate OnlyUses(a: Action, values: set<string>) {
    match a
    case Gets(_) => true
    case Sets(k, v) => !IsInternal(k) && v in values
    case Removes(k) => !IsInternal(k)
    case _ => false
  }

  lemma StoringStartsBetween(p: Primitives, values: set<string>, s: State, log: map<string, string>, key: Key,
                             pw: string, device: string, r: Random)
    requires p.Lawful() && OneKey(p, values, s, log, key) && MayLogin(pw, device) && NewBlob(p, s, pw, device, r).Some?
    requires s.key == Some(key)
    ensures Between(p, values, WithBlob(p, s, pw, device, r), log - {OLD_PASSWORD}, key, p.stretch(pw))
  {
    WithBlobEntries(p, World({key}, values), s, log, pw, device, r);
    WithBlobSound(p, s, pw, device, r);
    NewBlobDerives(p, s, pw, device, r);
  }

  lemma UseStaysBetween(p: Primitives, values: set<string>, s: State, log: map<string, string>, key: Key, d: Key, e: Event)
    requires p.Lawful() && (forall v :: v in values ==> Storable(v)) && Between(p, values, s, log, key, d) && OnlyUses(e.action, values)
    ensures Between(p, values, Step(p, s, e), Written(p, s, log, e), key, d)
  {
    match e.action
    case Gets(k) =>
    case Sets(k, v) =>
      AloneIsWellChosen(p, values, key);
      if IsSensitive(k) {
        StoredHolds(p, World({key}, values), k, s.sodium, s.key, e.random.nonce(k), v);
        EntryStaysBetween(p, values, s, log, key, d, k, Some(Stored(p, s.sodium, s.key, e.random.nonce(k), v)), Some(v));
      } else {
        EntryStaysBetween(p, values, s, log, key, d, k, Some(v), Some(v));
      }
    case Removes(k) => EntryStaysBetween(p, values, s, log, key, d, k, None, None);
  }

  function Put(m: map<string, string>, k: string, v: Option<string>): map<string, string> {
    if v.Some? then m[k := v.value] else m - {k}
  }

  lemma EntryStaysBetween(p: Primitives, values: set<string>, s: State, log: map<string, string>, key: Key, d: Key,
                          k: string, raw: Option<string>, v: Option<string>)
    requires Between(p, values, s, log, key, d) && !IsInternal(k) && Matches(p, World({key}, values), k, raw, v)
    ensures Between(p, values, s.(local := Put(s.local, k, raw)), Put(log, k, v), key, d)
  {
    var w, after, log' := World({key}, values), Put(s.local, k, raw), Put(log, k, v);
    forall j | !IsInternal(j) ensures Matches(p, w, j, Item(after, j), Item(log', j)) {
      assert Matches(p, w, j, Item(s.local, j), Item(log, j));
    }
    assert Item(after, DEVICE_KEY) == Item(s.local, DEVICE_KEY);
    assert Item(after, ENCRYPTED_PASSWORD) == Item(s.local, ENCRYPTED_PASSWORD);
  }

  lemma {:induction false} UsesStayBetween(p: Primitives, values: set<string>, h: History, events: seq<Event>, key: Key, d: Key)
    requires p.Lawful() && (forall v :: v in values ==> Storable(v)) && Between(p, values, h.state, h.log, key, d)
    requires forall e :: e in events ==> OnlyUses(e.action, values)
    ensures Between(p, values, Run(p, h, events).state, Run(p, h, events).log, key, d)
    decreases |events|
  {
    if events != [] {
      var n := |events| - 1;
      UsesStayBetween(p, values, h, events[..n], key, d);
      var before := Run(p, h, events[..n]);
      UseStaysBetween(p, values, before.state, before.log, key, d, events[n]);
    }
  }

  /**
    A password stored without a rekey does no harm when the rekey follows after
    nothing but reads and writes: then everything moves to the new key, what
    was written in between included.
  */
  lemma RekeyInTimeKeepsAll(p: Primitives, values: set<string>, s: State, log: map<string, string>, key: Key,
                            pw: string, device: string, r: Random, events: seq<Event>, r': Random)
    requires p.Lawful() && (forall v :: v in values ==> Storable(v))
    requires OneKey(p, values, s, log, key) && MayLogin(pw, device) && NewBlob(p, s, pw, device, r).Some?
    requires s.key == Some(key) && forall e :: e in events ==> OnlyUses(e.action, values)
    ensures var end := Run(p, History(WithBlob(p, s, pw, device, r), log - {OLD_PASSWORD}), events);
            OneKey(p, values, ReKey(p, end.state, r'), end.log, p.stretch(pw))
  {
    var h, d := History(WithBlob(p, s, pw, device, r), log - {OLD_PASSWORD}), p.stretch(pw);
    StoringStartsBetween(p, values, s, log, key, pw, device, r);
    UsesStayBetween(p, values, h, events, key, d);
    RekeyMoves(p, values, Run(p, h, events).state, Run(p, h, events).log, key, d, r');
  }

  lemma RekeyMoves(p: Primitives, values: set<string>, s: State, log: map<string, string>, key: Key, d: Key, r: Random)
    requires p.Lawful() && (forall v :: v in values ==> Storable(v)) && Between(p, values, s, log, key, d)
    ensures OneKey(p, values, ReKey(p, s, r), log, d)
  {
    ReKeyIs(p, s, d, r);
    RekeyedInternal(p, s, Some(key), d, r);
    LoginEntries(p, values, s, log, key, Some(key), d, r);
    KeyFromStored(p, d);
  }
}
