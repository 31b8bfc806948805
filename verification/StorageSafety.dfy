/** Safety of every run: a read gives back what was last written, or nothing. */
module StorageSafety {
  import opened Wrappers
  import opened StorageFormats
  import opened StorageModel

  /** The storage keys and the written values of a run. */
  datatype World = World(keys: set<Key>, values: set<string>)

  /** Values that begin with the magic character look encrypted, and a leading byte order mark is lost. */
  predicate Storable(v: string) {
    !IsEncrypted(v) && !StartsWithMark(v)
  }

  ghost predicate WellChosen(p: Primitives, w: World) {
    && w.keys != {}
    && (forall v :: v in w.values ==> Storable(v))
    && (forall v, k, k' :: v in w.values && k in w.keys && k' in w.keys ==> TellsApart(p, v, k, k'))
  }

  /** The entries that hold key material; pages write them only with a password at hand. */
  predicate IsInternal(k: string) {
    k == DEVICE_KEY || k == ENCRYPTED_PASSWORD || k == LOCAL_KEY
  }

  ghost predicate SealedUnder(p: Primitives, key: Key, nonce: Nonce, raw: string, v: string) {
    raw == [MAGIC] + SealV2(p, key, nonce, v)
  }

  ghost predicate Hides(p: Primitives, key: Key, raw: string, v: string) {
    raw == [MAGIC] + Tagged(p, key, v) || exists n: Nonce :: SealedUnder(p, key, n, raw, v)
  }

  ghost predicate HiddenIn(p: Primitives, keys: set<Key>, raw: string, v: string) {
    exists key :: key in keys && Hides(p, key, raw, v)
  }

  ghost predicate Holds(p: Primitives, w: World, k: string, raw: string, v: string) {
    v in w.values && (raw == v || (IsSensitive(k) && HiddenIn(p, w.keys, raw, v)))
  }

  ghost predicate Matches(p: Primitives, w: World, k: string, raw: Option<string>, v: Option<string>) {
    raw.Some? == v.Some? && (raw.Some? ==> Holds(p, w, k, raw.value, v.value))
  }

  ghost predicate Entries(p: Primitives, w: World, local: map<string, string>, log: map<string, string>) {
    forall k :: !IsInternal(k) ==> Matches(p, w, k, Item(local, k), Item(log, k))
  }

  predicate Known(w: World, key: Option<Key>) {
    key.Some? ==> key.value in w.keys
  }

  ghost function Derived(p: Primitives, local: map<string, string>): Option<Key> {
    if HasPasswordBootstrap(local) then DeriveFrom(p, local[ENCRYPTED_PASSWORD], local[DEVICE_KEY]) else None
  }

  ghost predicate KeysKnown(p: Primitives, w: World, s: State) {
    && Known(w, s.key)
    && Known(w, KeyFrom(p, s.session))
    && Known(w, KeyFrom(p, Item(s.local, LOCAL_KEY)))
    && Known(w, Derived(p, s.local))
  }

  /** A login writes the blob next to a device key, neither of them encrypted. */
  predicate BootstrapIsSound(local: map<string, string>) {
    && (DEVICE_KEY in local ==> !IsEncrypted(local[DEVICE_KEY]))
    && (ENCRYPTED_PASSWORD in local ==> HasPasswordBootstrap(local) && !IsEncrypted(local[ENCRYPTED_PASSWORD]))
  }

  ghost predicate Inv(p: Primitives, w: World, s: State, log: map<string, string>) {
    Entries(p, w, s.local, log) && KeysKnown(p, w, s) && BootstrapIsSound(s.local)
  }

  /** A random key is drawn only in this case. */
  predicate MayMint(p: Primitives, s: State) {
    !HasPasswordBootstrap(s.local) && CurrentKey(p, s).None?
  }

  // ----- Reading -----

  lemma KeyFromStored(p: Primitives, key: Key)
    requires p.Lawful()
    ensures KeyFrom(p, Some(p.btoa(key))) == Some(key)
  {
    assert p.atob(p.btoa(key)) == Some(key);
    var none: Bytes := [];
    assert p.atob(p.btoa(none)) == Some(none);
  }

  lemma OpensUnderOwn(p: Primitives, key: Key, raw: string, v: string)
    requires p.Lawful() && Hides(p, key, raw, v) && Storable(v)
    ensures IsEncrypted(raw)
    ensures DecryptInner(p, true, Some(key), raw[1..]) == Text(v)
    ensures !IsV2(raw[1..]) ==> DecryptInner(p, false, Some(key), raw[1..]) == Text(v)
  {
    if raw == [MAGIC] + Tagged(p, key, v) {
      TaggedOpens(p, key, key, v);
      assert raw[1..] == Tagged(p, key, v);
    } else {
      var n: Nonce :| SealedUnder(p, key, n, raw, v);
      V2Opens(p, key, key, n, v);
      FormatsAreDisjoint(p, key, n, v);
      assert raw[1..] == SealV2(p, key, n, v);
    }
  }

  /** A hidden value opens to itself or not at all, whichever known key is tried. */
  lemma OpensOrNot(p: Primitives, w: World, raw: string, v: string, sodium: bool, key: Option<Key>)
    requires p.Lawful() && WellChosen(p, w) && Known(w, key) && v in w.values && HiddenIn(p, w.keys, raw, v)
    ensures IsEncrypted(raw)
    ensures DecryptInner(p, sodium, key, raw[1..]) in {Text(v), Unreadable}
  {
    var own :| own in w.keys && Hides(p, own, raw, v);
    if key.Some? {
      if raw == [MAGIC] + Tagged(p, own, v) {
        TaggedOpens(p, own, key.value, v);
        assert TellsApart(p, v, own, key.value);
        assert raw[1..] == Tagged(p, own, v);
      } else {
        var n: Nonce :| SealedUnder(p, own, n, raw, v);
        V2Opens(p, own, key.value, n, v);
        FormatsAreDisjoint(p, own, n, v);
        assert raw[1..] == SealV2(p, own, n, v);
      }
    }
  }

  // ----- Keeping the invariant -----

  /** A blob that is not itself encrypted is parsed as it is. */
  lemma TryDeriveIs(p: Primitives, s: State)
    requires BootstrapIsSound(s.local)
    ensures TryDerive(p, s) == if s.crypto && s.sodium then Derived(p, s.local) else None
  {
  }

  ghost predicate SameBut(a: map<string, string>, b: map<string, string>, x: string) {
    forall k :: k != x ==> Item(a, k) == Item(b, k)
  }

  /** Every choice of key: the old one, the derived one, a cached one, or a new one. */
  lemma EnsureKeyChoices(p: Primitives, s: State, minted: Key)
    requires p.Lawful() && BootstrapIsSound(s.local)
    ensures var s' := EnsureKey(p, s, minted);
            && s'.sodium == s.sodium && s'.crypto == s.crypto && s'.initDone == s.initDone
            && (if s.key.None? && HasPasswordBootstrap(s.local) && s.crypto && s.sodium && Derived(p, s.local).Some?
                then s'.key == Derived(p, s.local) && s'.local == s.local - {LOCAL_KEY}
                else if CurrentKey(p, s).None? && !HasPasswordBootstrap(s.local)
                then s'.key == Some(minted) && s'.local == s.local[LOCAL_KEY := p.btoa(minted)]
                else s'.key == CurrentKey(p, s) && s'.local == s.local)
  {
    TryDeriveIs(p, s);
    if s.key.None? {
      if HasPasswordBootstrap(s.local) {
        WithBlobChoices(p, s, minted);
      } else {
        WithoutBlobChoices(p, s, minted);
      }
    }
  }

  lemma WithBlobChoices(p: Primitives, s: State, minted: Key)
    requires s.key.None? && HasPasswordBootstrap(s.local)
    ensures var s', d := EnsureKey(p, s, minted), TryDerive(p, s);
            && s'.sodium == s.sodium && s'.crypto == s.crypto && s'.initDone == s.initDone
            && if d.Some? then s'.key == d && s'.local == s.local - {LOCAL_KEY} else s'.key == CurrentKey(p, s) && s'.local == s.local
  {
  }

  lemma WithoutBlobChoices(p: Primitives, s: State, minted: Key)
    requires s.key.None? && !HasPasswordBootstrap(s.local)
    ensures var s' := EnsureKey(p, s, minted);
            && s'.sodium == s.sodium && s'.crypto == s.crypto && s'.initDone == s.initDone
            && if CurrentKey(p, s).Some? then s'.key == CurrentKey(p, s) && s'.local == s.local
               else s'.key == Some(minted) && s'.local == s.local[LOCAL_KEY := p.btoa(minted)]
  {
  }

  lemma EnsureKeyFlags(p: Primitives, s: State, minted: Key)
    ensures EnsureKey(p, s, minted).sodium == s.sodium && EnsureKey(p, s, minted).crypto == s.crypto
  {
  }

  lemma EnsureKeySpares(p: Primitives, s: State, minted: Key, k: string)
    requires k != LOCAL_KEY
    ensures Item(EnsureKey(p, s, minted).local, k) == Item(s.local, k)
  {
  }

  /** Only the key in memory is ever cached. */
  lemma EnsureKeyCaches(p: Primitives, s: State, minted: Key)
    ensures var s' := EnsureKey(p, s, minted);
            s'.session == s.session || (s'.key.Some? && s'.session == Some(p.btoa(s'.key.value)))
  {
    if s.key.None? && HasPasswordBootstrap(s.local) {
      var d, s' := TryDerive(p, s), EnsureKey(p, s, minted);
      assert s' == if d.Some? then WithDerivedKey(p, s, d.value).(pending := false) else s.(key := CurrentKey(p, s), pending := true);
    }
  }

  lemma EntriesSameBut(p: Primitives, w: World, a: map<string, string>, b: map<string, string>, log: map<string, string>)
    requires Entries(p, w, a, log) && SameBut(a, b, LOCAL_KEY)
    ensures Entries(p, w, b, log)
  {
    forall k | !IsInternal(k) ensures Matches(p, w, k, Item(b, k), Item(log, k)) {
      assert Item(a, k) == Item(b, k);
    }
  }

  lemma LocalKeyOnly(p: Primitives, a: map<string, string>, b: map<string, string>)
    requires SameBut(a, b, LOCAL_KEY)
    ensures HasPasswordBootstrap(b) == HasPasswordBootstrap(a) && Derived(p, b) == Derived(p, a)
    ensures BootstrapIsSound(b) == BootstrapIsSound(a)
  {
    assert Item(a, DEVICE_KEY) == Item(b, DEVICE_KEY);
    assert Item(a, ENCRYPTED_PASSWORD) == Item(b, ENCRYPTED_PASSWORD);
  }

  lemma EnsureKeyKeeps(p: Primitives, w: World, s: State, log: map<string, string>, minted: Key)
    requires p.Lawful() && Inv(p, w, s, log) && (MayMint(p, s) ==> minted in w.keys)
    ensures var s' := EnsureKey(p, s, minted);
            && Inv(p, w, s', log)
            && SameBut(s.local, s'.local, LOCAL_KEY)
            && !MayMint(p, s')
            && s'.sodium == s.sodium
  {
    var s' := EnsureKey(p, s, minted);
    EnsureKeyChoices(p, s, minted);
    EnsureKeyCaches(p, s, minted);
    assert SameBut(s.local, s'.local, LOCAL_KEY);
    LocalKeyOnly(p, s.local, s'.local);
    EntriesSameBut(p, w, s.local, s'.local, log);
    if s'.key.Some? {
      KeyFromStored(p, s'.key.value);
    }
  }

  lemma StoredHolds(p: Primitives, w: World, k: string, sodium: bool, key: Option<Key>, nonce: Nonce, v: string)
    requires p.Lawful() && WellChosen(p, w) && Known(w, key) && v in w.values && IsSensitive(k)
    ensures Holds(p, w, k, Stored(p, sodium, key, nonce, v), v)
  {
    var raw := Stored(p, sodium, key, nonce, v);
    if key.Some? {
      assert sodium ==> SealedUnder(p, key.value, nonce, raw, v);
      assert Hides(p, key.value, raw, v);
    } else if raw != v {
      var any :| any in w.keys;
      assert Xor(p.encode(v), any) == [];
      assert Hides(p, any, raw, v);
    }
  }

  lemma SetKeeps(p: Primitives, w: World, s: State, log: map<string, string>, k: string, v: string, r: Random)
    requires p.Lawful() && WellChosen(p, w) && Inv(p, w, s, log) && (MayMint(p, s) ==> r.key in w.keys)
    requires !IsInternal(k) && v in w.values
    ensures Inv(p, w, Set(p, s, k, v, r), log[k := v])
  {
    if IsSensitive(k) {
      var s0 := EnsureKey(p, s, r.key);
      var s1 := EnsureKey(p, s0, r.key);
      EnsureKeyKeeps(p, w, s, log, r.key);
      EnsureKeyKeeps(p, w, s0, log, r.key);
      StoredHolds(p, w, k, s1.sodium, s1.key, r.nonce(k), v);
      WriteKeeps(p, w, s1, log, k, Stored(p, s1.sodium, s1.key, r.nonce(k), v), v);
    } else {
      WriteKeeps(p, w, s, log, k, v, v);
    }
  }

  lemma WriteKeeps(p: Primitives, w: World, s: State, log: map<string, string>, k: string, raw: string, v: string)
    requires Inv(p, w, s, log) && !IsInternal(k) && Holds(p, w, k, raw, v)
    ensures Inv(p, w, s.(local := s.local[k := raw]), log[k := v])
  {
    var after := s.local[k := raw];
    forall j | !IsInternal(j) ensures Matches(p, w, j, Item(after, j), Item(log[k := v], j)) {
      assert Matches(p, w, j, Item(s.local, j), Item(log, j));
    }
    InternalSame(p, w, s, after);
  }

  /** In these runs nothing needs repair. */
  lemma NothingToRepair(p: Primitives, w: World, s: State, log: map<string, string>, r: Random)
    requires (forall v :: v in w.values ==> Storable(v)) && Entries(p, w, s.local, log) && BootstrapIsSound(s.local)
    ensures Repair(p, Repair(p, Repair(p, s, DEVICE_KEY, r), ENCRYPTED_PASSWORD, r), FRIEND_CODE, r) == s
  {
    assert !IsInternal(FRIEND_CODE);
    assert Matches(p, w, FRIEND_CODE, Item(s.local, FRIEND_CODE), Item(log, FRIEND_CODE));
  }

  lemma MigrateKeeps(p: Primitives, w: World, s: State, log: map<string, string>, r: Random)
    requires p.Lawful() && WellChosen(p, w) && Inv(p, w, s, log) && (MayMint(p, s) ==> r.key in w.keys)
    ensures Inv(p, w, Migrate(p, s, r), log)
  {
    if exists k :: IsPlainSecret(s.local, k) {
      var s1 := EnsureKey(p, s, r.key);
      EnsureKeyKeeps(p, w, s, log, r.key);
      MigratedKeeps(p, w, s1, log, r);
    }
  }

  lemma MigratedKeeps(p: Primitives, w: World, s: State, log: map<string, string>, r: Random)
    requires p.Lawful() && WellChosen(p, w) && Inv(p, w, s, log)
    ensures Inv(p, w, s.(local := Migrated(p, s, r)), log)
  {
    var after := Migrated(p, s, r);
    forall j | !IsInternal(j) ensures Matches(p, w, j, Item(after, j), Item(log, j)) {
      assert Matches(p, w, j, Item(s.local, j), Item(log, j));
      if IsPlainSecret(s.local, j) {
        PlainIsWritten(p, w, s.local, log, j);
        StoredHolds(p, w, j, s.sodium, s.key, r.nonce(j), s.local[j]);
      }
    }
    InternalSame(p, w, s, after);
  }

  lemma PlainIsWritten(p: Primitives, w: World, local: map<string, string>, log: map<string, string>, j: string)
    requires Matches(p, w, j, Item(local, j), Item(log, j)) && j in local && !IsEncrypted(local[j])
    ensures j in log && local[j] == log[j]
  {
  }

  /** The keys at hand depend on the internal entries only. */
  lemma InternalSame(p: Primitives, w: World, s: State, after: map<string, string>)
    requires KeysKnown(p, w, s) && BootstrapIsSound(s.local)
    requires forall k :: IsInternal(k) ==> Item(after, k) == Item(s.local, k)
    ensures KeysKnown(p, w, s.(local := after)) && BootstrapIsSound(after)
    ensures MayMint(p, s.(local := after)) == MayMint(p, s) && Derived(p, after) == Derived(p, s.local)
  {
    assert Item(after, DEVICE_KEY) == Item(s.local, DEVICE_KEY);
    assert Item(after, ENCRYPTED_PASSWORD) == Item(s.local, ENCRYPTED_PASSWORD);
    assert Item(after, LOCAL_KEY) == Item(s.local, LOCAL_KEY);
  }

  lemma SecInitKeeps(p: Primitives, w: World, s: State, log: map<string, string>, r: Random)
    requires p.Lawful() && WellChosen(p, w) && Inv(p, w, s, log) && (MayMint(p, s) ==> r.key in w.keys)
    ensures Inv(p, w, SecInit(p, s, r), log)
  {
    if !s.initDone {
      var s1 := EnsureKey(p, s, r.key);
      EnsureKeyKeeps(p, w, s, log, r.key);
      NothingToRepair(p, w, s1, log, r);
      MigrateKeeps(p, w, s1, log, r);
    }
  }

  lemma RedriveKeeps(p: Primitives, w: World, s: State, log: map<string, string>)
    requires p.Lawful() && Inv(p, w, s, log)
    ensures Inv(p, w, Redrive(p, s), log)
    ensures MayMint(p, Redrive(p, s)) ==> MayMint(p, s)
  {
    TryDeriveIs(p, s);
    var s' := Redrive(p, s);
    if TryDerive(p, s).Some? {
      KeyFromStored(p, TryDerive(p, s).value);
    }
    assert Item(s'.local, DEVICE_KEY) == Item(s.local, DEVICE_KEY);
    assert Item(s'.local, ENCRYPTED_PASSWORD) == Item(s.local, ENCRYPTED_PASSWORD);
    assert SameBut(s.local, s'.local, LOCAL_KEY);
  }

  lemma UpgradeEntryKeeps(p: Primitives, w: World, k: string, raw: string, v: string, key: Key, nonce: Nonce)
    requires p.Lawful() && WellChosen(p, w) && key in w.keys && IsSensitive(k) && Holds(p, w, k, raw, v)
    ensures UpgradeEntry(p, raw, key, nonce).Some? && Holds(p, w, k, UpgradeEntry(p, raw, key, nonce).value, v)
  {
    if raw != v {
      OpensOrNot(p, w, raw, v, false, Some(key));
      var after := UpgradeEntry(p, raw, key, nonce).value;
      if after != raw {
        assert SealedUnder(p, key, nonce, after, v);
        assert Hides(p, key, after, v);
      }
    }
  }

  lemma {:induction false} UpgradeFromKeeps(p: Primitives, w: World, local: map<string, string>, order: seq<string>,
                                            key: Key, r: Random, log: map<string, string>)
    requires p.Lawful() && WellChosen(p, w) && key in w.keys && Entries(p, w, local, log)
    ensures var up := UpgradeFrom(p, local, order, key, r);
            && Entries(p, w, up.local, log)
            && !up.threw
            && forall k :: !IsSensitive(k) ==> Item(up.local, k) == Item(local, k)
    decreases |order|
  {
    if order != [] {
      var k := order[0];
      if k in local && IsSensitive(k) {
        assert !IsInternal(k);
        assert Matches(p, w, k, Item(local, k), Item(log, k));
        UpgradeEntryKeeps(p, w, k, local[k], log[k], key, r.nonce(k));
        var next := local[k := UpgradeEntry(p, local[k], key, r.nonce(k)).value];
        assert forall j :: j != k ==> Item(next, j) == Item(local, j);
        UpgradeFromKeeps(p, w, next, order[1..], key, r, log);
      } else {
        UpgradeFromKeeps(p, w, local, order[1..], key, r, log);
      }
    }
  }

  lemma UpgradeKeeps(p: Primitives, w: World, s: State, log: map<string, string>, order: seq<string>, r: Random)
    requires p.Lawful() && WellChosen(p, w) && Inv(p, w, s, log)
    ensures var up := UpgradeToAead(p, s, order, r);
            && Inv(p, w, s.(local := up.local), log)
            && !up.threw
            && (forall k :: IsInternal(k) ==> Item(up.local, k) == Item(s.local, k))
            && MayMint(p, s.(local := up.local)) == MayMint(p, s)
  {
    var up := UpgradeToAead(p, s, order, r);
    if s.sodium && CurrentKey(p, s).Some? {
      UpgradeFromKeeps(p, w, s.local, order, CurrentKey(p, s).value, r, log);
    }
    InternalSame(p, w, s, up.local);
  }

  lemma SodiumCallbackKeeps(p: Primitives, w: World, s: State, log: map<string, string>, order: seq<string>, r: Random)
    requires p.Lawful() && WellChosen(p, w) && Inv(p, w, s, log) && (MayMint(p, s) ==> r.key in w.keys)
    ensures Inv(p, w, SodiumCallback(p, s, order, r), log)
  {
    var s1 := if s.pending then Redrive(p, s) else s;
    RedriveKeeps(p, w, s, log);
    UpgradeKeeps(p, w, s1, log, order, r);
    SecInitKeeps(p, w, s1.(local := UpgradeToAead(p, s1, order, r).local), log, r);
  }

  /** Entries re-encrypted from keys of `w` to `d`; `w'` must know `d` and what is left as it was. */
  lemma RekeyedEntry(p: Primitives, w: World, k: string, raw: string, v: string, key: Option<Key>, d: Key, nonce: Nonce)
    requires p.Lawful() && WellChosen(p, w) && Known(w, key) && Holds(p, w, k, raw, v) && IsSensitive(k)
    requires OldText(p, true, key, raw).Some?
    ensures OldText(p, true, key, raw) == Some(v)
    ensures Hides(p, d, [MAGIC] + SealV2(p, d, nonce, v), v)
  {
    if raw != v {
      OpensOrNot(p, w, raw, v, true, key);
    }
    assert SealedUnder(p, d, nonce, [MAGIC] + SealV2(p, d, nonce, v), v);
  }

  lemma ReKeyKeeps(p: Primitives, w: World, s: State, log: map<string, string>, r: Random)
    requires p.Lawful() && WellChosen(p, w) && Inv(p, w, s, log)
    ensures Inv(p, w, ReKey(p, s, r), log)
  {
    var s1, previous := s.(key := None, session := None), CurrentKey(p, s);
    TryDeriveIs(p, s1);
    if TryDerive(p, s1).Some? {
      var d, after := TryDerive(p, s1).value, ReKey(p, s, r);
      assert after.local == Rekeyed(p, s1, previous, d, r);
      forall j | !IsInternal(j) ensures Matches(p, w, j, Item(after.local, j), Item(log, j)) {
        assert Matches(p, w, j, Item(s.local, j), Item(log, j));
        if j in s.local && IsSensitive(j) && OldText(p, true, previous, s.local[j]).Some? {
          RekeyedEntry(p, w, j, s.local[j], log[j], previous, d, r.nonce(j));
        }
      }
      KeyFromStored(p, d);
      assert Item(after.local, DEVICE_KEY) == Item(s.local, DEVICE_KEY);
      assert Item(after.local, ENCRYPTED_PASSWORD) == Item(s.local, ENCRYPTED_PASSWORD);
      assert Item(after.local, LOCAL_KEY) == None;
    }
  }

  predicate MayLogin(pw: string, device: string) {
    pw != "" && device != "" && !IsEncrypted(device)
  }

  /** A new blob derives the key of its password. */
  lemma NewBlobDerives(p: Primitives, s: State, pw: string, device: string, r: Random)
    requires p.Lawful() && MayLogin(pw, device) && NewBlob(p, s, pw, device, r).Some?
    ensures var t := WithBlob(p, s, pw, device, r);
            && s.crypto && s.sodium
            && HasPasswordBootstrap(t.local)
            && !IsEncrypted(t.local[ENCRYPTED_PASSWORD])
            && Derived(p, t.local) == Some(p.stretch(pw))
  {
    var e, dev := NewBlob(p, s, pw, device, r).value, Item(WithDeviceKey(s, device), DEVICE_KEY).value;
    assert p.wrap(r.nonce(ENCRYPTED_PASSWORD), pw, dev) == Some(e);
    assert p.IsWrapping(e, pw, dev);
    assert Item(WithBlob(p, s, pw, device, r).local, DEVICE_KEY) == Some(dev);
  }

  /** Without one, logging in writes at most a first device key. */
  lemma NoBlobDerives(p: Primitives, s: State, pw: string, device: string, r: Random)
    requires BootstrapIsSound(s.local) && MayLogin(pw, device) && NewBlob(p, s, pw, device, r).None?
    ensures var t := WithBlob(p, s, pw, device, r);
            && SameBut(s.local, t.local, DEVICE_KEY)
            && BootstrapIsSound(t.local)
            && HasPasswordBootstrap(t.local) == HasPasswordBootstrap(s.local)
            && Derived(p, t.local) == Derived(p, s.local)
  {
  }

  lemma WithBlobEntries(p: Primitives, w: World, s: State, log: map<string, string>, pw: string, device: string, r: Random)
    requires Entries(p, w, s.local, log)
    ensures var log' := if NewBlob(p, s, pw, device, r).Some? then log - {OLD_PASSWORD} else log;
            && Entries(p, w, WithBlob(p, s, pw, device, r).local, log')
            && Item(WithBlob(p, s, pw, device, r).local, LOCAL_KEY) == Item(s.local, LOCAL_KEY)
  {
    var log' := if NewBlob(p, s, pw, device, r).Some? then log - {OLD_PASSWORD} else log;
    var local' := WithBlob(p, s, pw, device, r).local;
    forall j | !IsInternal(j) ensures Matches(p, w, j, Item(local', j), Item(log', j)) {
      assert Matches(p, w, j, Item(s.local, j), Item(log, j));
    }
  }

  /** The blob alone, without a rekey. */
  lemma WithBlobKeeps(p: Primitives, w: World, s: State, log: map<string, string>, pw: string, device: string, r: Random)
    requires p.Lawful() && Inv(p, w, s, log) && MayLogin(pw, device) && p.stretch(pw) in w.keys
    ensures var log' := if NewBlob(p, s, pw, device, r).Some? then log - {OLD_PASSWORD} else log;
            Inv(p, w, WithBlob(p, s, pw, device, r), log')
  {
    WithBlobEntries(p, w, s, log, pw, device, r);
    if NewBlob(p, s, pw, device, r).Some? {
      NewBlobDerives(p, s, pw, device, r);
    } else {
      NoBlobDerives(p, s, pw, device, r);
    }
  }

  lemma LoginKeeps(p: Primitives, w: World, s: State, log: map<string, string>, pw: string, device: string, r: Random)
    requires p.Lawful() && WellChosen(p, w) && Inv(p, w, s, log)
    requires MayLogin(pw, device) && p.stretch(pw) in w.keys
    ensures var log' := if NewBlob(p, s, pw, device, r).Some? then log - {OLD_PASSWORD} else log;
            Inv(p, w, Login(p, s, pw, device, r), log')
  {
    var log' := if NewBlob(p, s, pw, device, r).Some? then log - {OLD_PASSWORD} else log;
    WithBlobKeeps(p, w, s, log, pw, device, r);
    ReKeyKeeps(p, w, WithBlob(p, s, pw, device, r), log', r);
  }

  /** What a password change leaves behind. */
  lemma ChangedBlobDerives(p: Primitives, s: State, pw: string, r: Random)
    requires p.Lawful() && BootstrapIsSound(s.local) && pw != "" && ChangedBlob(p, s, pw, r).Some?
    ensures var s' := RekeyToPassword(p, s, pw, r);
            && s' == s.(local := s.local[ENCRYPTED_PASSWORD := ChangedBlob(p, s, pw, r).value] - {LOCAL_KEY}, key := None, session := None)
            && s.crypto && s.sodium && HasPasswordBootstrap(s'.local) && BootstrapIsSound(s'.local)
            && Derived(p, s'.local) == Some(p.stretch(pw))
  {
    var e, dev := ChangedBlob(p, s, pw, r).value, s.local[DEVICE_KEY];
    assert p.wrap(r.nonce(ENCRYPTED_PASSWORD), pw, dev) == Some(e);
    assert p.IsWrapping(e, pw, dev);
    var s1 := s.(local := s.local[ENCRYPTED_PASSWORD := e], key := None, session := None);
    assert Item(s1.local, DEVICE_KEY) == Some(dev);
    TryDeriveIs(p, s1);
    assert Item(s1.local - {LOCAL_KEY}, DEVICE_KEY) == Some(dev);
  }

  lemma PasswordChangeKeeps(p: Primitives, w: World, s: State, log: map<string, string>, pw: string, r: Random)
    requires p.Lawful() && Inv(p, w, s, log) && pw != "" && p.stretch(pw) in w.keys
    ensures Inv(p, w, RekeyToPassword(p, s, pw, r), log)
  {
    if ChangedBlob(p, s, pw, r).Some? {
      ChangedBlobDerives(p, s, pw, r);
      var after := RekeyToPassword(p, s, pw, r).local;
      forall j | !IsInternal(j) ensures Matches(p, w, j, Item(after, j), Item(log, j)) {
        assert Matches(p, w, j, Item(s.local, j), Item(log, j));
      }
      assert Item(after, LOCAL_KEY) == None;
    }
  }

  // ----- Wiping -----

  lemma MediaIsSecret(k: string)
    ensures IsMediaCache(k) ==> IsSensitive(k) && !IsPreference(k)
    ensures IsPreference(k) ==> !IsSensitive(k) && !IsInternal(k)
  {
    assert SENSITIVE_PREFIXES[1] <= "user_display_name_cache";
    if "fkc_" <= k {
      assert SENSITIVE_PREFIXES[4] <= k && k[0] == 'f';
    } else if k == "profile_key_cache" {
      assert SENSITIVE_PREFIXES[5] <= k;
    }
    assert IsPreference(k) ==> k == "" || k[0] == 's' || k[0] == 'r';
  }

  lemma AfterMediaReadsKeeps(p: Primitives, w: World, s: State, log: map<string, string>, r: Random)
    requires p.Lawful() && Inv(p, w, s, log) && (MayMint(p, s) ==> r.key in w.keys)
    ensures var s1 := AfterMediaReads(p, s, r);
            Inv(p, w, s1, log) && SameBut(s.local, s1.local, LOCAL_KEY) && s1.sodium == s.sodium
  {
    EnsureKeyKeeps(p, w, s, log, r.key);
  }

  lemma ClearAllKeeps(p: Primitives, w: World, s: State, log: map<string, string>)
    requires Inv(p, w, s, log)
    ensures Inv(p, w, ClearAll(s), Left(log, ClearAll(s).local))
    ensures SameInternal(s.local, ClearAll(s).local)
  {
    var after := ClearAll(s).local;
    forall j | !IsInternal(j) ensures Matches(p, w, j, Item(after, j), Item(Left(log, after), j)) {
      assert Matches(p, w, j, Item(s.local, j), Item(log, j));
    }
    InternalSame(p, w, s, after);
  }

  ghost predicate SameInternal(a: map<string, string>, b: map<string, string>) {
    forall k :: IsInternal(k) ==> Item(a, k) == Item(b, k)
  }

  /** A text read before the clear is the value last written. */
  lemma MediaTextIsWritten(p: Primitives, w: World, s: State, log: map<string, string>, k: string)
    requires p.Lawful() && WellChosen(p, w) && Inv(p, w, s, log) && k in MediaTexts(p, s)
    ensures k in log && MediaTexts(p, s)[k] == log[k] && log[k] in w.values && IsSensitive(k)
  {
    MediaIsSecret(k);
    assert Matches(p, w, k, Item(s.local, k), Item(log, k));
    if s.local[k] != log[k] {
      OpensOrNot(p, w, s.local[k], log[k], s.sodium, s.key);
    }
  }

  /** The texts may be written under a key of another world. */
  lemma SparedKeeps(p: Primitives, w: World, w': World, s1: State, s2: State, log: map<string, string>, r: Random)
    requires p.Lawful() && WellChosen(p, w) && WellChosen(p, w') && w.values == w'.values && Inv(p, w, s1, log) && Known(w', s2.key)
    requires forall k :: IsPreference(k) ==> Item(s2.local, k) == Item(s1.local, k)
    ensures var local := Spared(p, s2, MediaTexts(p, s1), r);
            Inv(p, w', s2.(session := None, local := local), Left(log, local))
  {
    var texts := MediaTexts(p, s1);
    var local := Spared(p, s2, texts, r);
    forall j | !IsInternal(j) ensures Matches(p, w', j, Item(local, j), Item(Left(log, local), j)) {
      MediaIsSecret(j);
      if j in texts {
        MediaTextIsWritten(p, w, s1, log, j);
        StoredHolds(p, w', j, s2.sodium, s2.key, r.nonce(j), texts[j]);
      } else if IsPreference(j) {
        assert Item(s2.local, j) == Item(s1.local, j);
        assert Matches(p, w, j, Item(s1.local, j), Item(log, j));
      }
    }
    forall k | k in texts ensures IsSensitive(k) {
      MediaIsSecret(k);
    }
    NothingInternalLeft(p, s2, texts, r);
  }

  lemma NothingInternalLeft(p: Primitives, s: State, texts: map<string, string>, r: Random)
    requires forall k :: k in texts ==> IsSensitive(k)
    ensures var local := Spared(p, s, texts, r);
            DEVICE_KEY !in local && ENCRYPTED_PASSWORD !in local && LOCAL_KEY !in local
  {
  }

  /** After the clear a key is drawn only if there was none in storage before. */
  lemma ClearedMints(p: Primitives, s: State, r: Random)
    requires p.Lawful() && BootstrapIsSound(s.local)
    ensures MayMint(p, s) ==> MayMint(p, s.(key := None, session := None))
    ensures MayMint(p, ClearAll(AfterMediaReads(p, s, r))) ==> MayMint(p, s.(key := None, session := None))
  {
    var s1 := AfterMediaReads(p, s, r);
    var c := ClearAll(s1);
    EnsureKeyChoices(p, s, r.key);
    KeyFromStored(p, r.key);
    assert Item(c.local, DEVICE_KEY) == Item(s.local, DEVICE_KEY);
    assert Item(c.local, ENCRYPTED_PASSWORD) == Item(s.local, ENCRYPTED_PASSWORD);
    assert Item(c.local, LOCAL_KEY) == Item(s1.local, LOCAL_KEY);
  }

  lemma ClearedKeeps(p: Primitives, w: World, s: State, log: map<string, string>, ask: bool, minted: Key)
    requires p.Lawful() && Inv(p, w, s, log) && (MayMint(p, ClearAll(s)) ==> minted in w.keys)
    ensures var c := ClearAll(s);
            var s' := if ask then EnsureKey(p, c, minted) else c;
            Known(w, s'.key)
  {
    var c := ClearAll(s);
    ClearAllKeeps(p, w, s, log);
    EnsureKeyKeeps(p, w, c, Left(log, c.local), minted);
  }

  lemma PreferencesStay(p: Primitives, w: World, s: State, log: map<string, string>, ask: bool, minted: Key)
    requires p.Lawful() && Inv(p, w, s, log)
    ensures var c := ClearAll(s);
            var s' := if ask then EnsureKey(p, c, minted) else c;
            forall k :: IsPreference(k) ==> Item(s'.local, k) == Item(s.local, k)
  {
    var c := ClearAll(s);
    ClearAllKeeps(p, w, s, log);
    EnsureKeyChoices(p, c, minted);
    var s' := if ask then EnsureKey(p, c, minted) else c;
    assert SameBut(c.local, s'.local, LOCAL_KEY);
    forall k | IsPreference(k) ensures Item(s'.local, k) == Item(s.local, k) {
      MediaIsSecret(k);
      assert Item(s'.local, k) == Item(c.local, k);
    }
  }

  lemma WipeKeeps(p: Primitives, w: World, s: State, log: map<string, string>, r: Random)
    requires p.Lawful() && WellChosen(p, w) && Inv(p, w, s, log) && (MayMint(p, s.(key := None, session := None)) ==> r.key in w.keys)
    ensures Inv(p, w, Wipe(p, s, r), Left(log, Wipe(p, s, r).local))
  {
    var s1 := AfterMediaReads(p, s, r);
    ClearedMints(p, s, r);
    AfterMediaReadsKeeps(p, w, s, log, r);
    var ask := MediaTexts(p, s1) != map[];
    ClearedKeeps(p, w, s1, log, ask, r.key);
    PreferencesStay(p, w, s1, log, ask, r.key);
    SparedKeeps(p, w, w, s1, if ask then EnsureKey(p, ClearAll(s1), r.key) else ClearAll(s1), log, r);
  }

  lemma ClearDataKeeps(p: Primitives, w: World, s: State, log: map<string, string>)
    requires Inv(p, w, s, log)
    ensures Inv(p, w, ClearData(s), Left(log, ClearData(s).local))
    ensures forall k :: k in ClearData(s).local ==> !IsInternal(k) && !IsSensitive(k)
  {
    var local := ClearData(s).local;
    forall k ensures k in local ==> !IsInternal(k) && !IsSensitive(k) {
      MediaIsSecret(k);
    }
    forall j | !IsInternal(j) ensures Matches(p, w, j, Item(local, j), Item(Left(log, local), j)) {
      assert Matches(p, w, j, Item(s.local, j), Item(log, j));
    }
  }

  // ----- Runs -----

  /** The state in which an event may have to draw a key. */
  function Asked(s: State, a: Action): State {
    match a
    case Load(keep, sodium, crypto) => NewPage(s, keep, sodium, crypto)
    case Wipes => s.(key := None, session := None)
    case _ => s
  }

  ghost predicate Permitted(p: Primitives, w: World, s: State, e: Event) {
    && (MayMint(p, Asked(s, e.action)) ==> e.random.key in w.keys)
    && match e.action
       case Sets(k, v) => !IsInternal(k) && v in w.values
       case Removes(k) => !IsInternal(k)
       case Logins(pw, device) => MayLogin(pw, device) && p.stretch(pw) in w.keys
       case StoresPassword(pw, device) => MayLogin(pw, device) && p.stretch(pw) in w.keys
       case ChangesPassword(pw) => pw != "" && p.stretch(pw) in w.keys
       case _ => true
  }

  lemma StepKeeps(p: Primitives, w: World, s: State, log: map<string, string>, e: Event)
    requires p.Lawful() && WellChosen(p, w) && Inv(p, w, s, log) && Permitted(p, w, s, e)
    ensures Inv(p, w, Step(p, s, e), Written(p, s, log, e))
  {
    var r := e.random;
    match e.action
    case Load(keep, sodium, crypto) =>
      SecInitKeeps(p, w, NewPage(s, keep, sodium, crypto), log, r);
    case SodiumLoads =>
    case CryptoLoads =>
    case SodiumIsReady => SodiumCallbackKeeps(p, w, s, log, e.order, r);
    case Redrives => RedriveKeeps(p, w, s, log);
    case Upgrades => UpgradeKeeps(p, w, s, log, e.order, r);
    case Rekeys => ReKeyKeeps(p, w, s, log, r);
    case Gets(k) => EnsureKeyKeeps(p, w, s, log, r.key);
    case _ => WritingStepKeeps(p, w, s, log, e);
  }

  /** Events that write or remove entries. */
  predicate Writes(a: Action) {
    a.Sets? || a.Removes? || a.Logins? || a.StoresPassword? || a.ChangesPassword? || a.Wipes? || a.ClearsData?
  }

  lemma WritingStepKeeps(p: Primitives, w: World, s: State, log: map<string, string>, e: Event)
    requires p.Lawful() && WellChosen(p, w) && Inv(p, w, s, log) && Permitted(p, w, s, e) && Writes(e.action)
    ensures Inv(p, w, Step(p, s, e), Written(p, s, log, e))
  {
    match e.action
    case Sets(k, v) => SetKeeps(p, w, s, log, k, v, e.random);
    case Removes(k) => RemoveKeeps(p, w, s, log, k);
    case Wipes => WipeKeeps(p, w, s, log, e.random);
    case ClearsData => ClearDataKeeps(p, w, s, log);
    case Logins(pw, device) => LoginKeeps(p, w, s, log, pw, device, e.random);
    case StoresPassword(pw, device) => WithBlobKeeps(p, w, s, log, pw, device, e.random);
    case ChangesPassword(pw) => PasswordChangeKeeps(p, w, s, log, pw, e.random);
  }

  lemma RemoveKeeps(p: Primitives, w: World, s: State, log: map<string, string>, k: string)
    requires Inv(p, w, s, log) && !IsInternal(k)
    ensures Inv(p, w, s.(local := s.local - {k}), log - {k})
  {
    var after := s.local - {k};
    forall j | !IsInternal(j) ensures Matches(p, w, j, Item(after, j), Item(log - {k}, j)) {
      assert Matches(p, w, j, Item(s.local, j), Item(log, j));
    }
    InternalSame(p, w, s, after);
  }

  ghost predicate PermittedAt(p: Primitives, w: World, h: History, events: seq<Event>, i: nat)
    requires i < |events|
  {
    Permitted(p, w, Run(p, h, events[..i]).state, events[i])
  }

  lemma {:induction false} RunKeeps(p: Primitives, w: World, h: History, events: seq<Event>)
    requires p.Lawful() && WellChosen(p, w) && Inv(p, w, h.state, h.log)
    requires forall i :: 0 <= i < |events| ==> PermittedAt(p, w, h, events, i)
    ensures Inv(p, w, Run(p, h, events).state, Run(p, h, events).log)
    decreases |events|
  {
    if events != [] {
      var last := |events| - 1;
      var before := events[..last];
      forall i | 0 <= i < last ensures PermittedAt(p, w, h, before, i) {
        assert PermittedAt(p, w, h, events, i);
        assert before[..i] == events[..i];
      }
      RunKeeps(p, w, h, before);
      assert PermittedAt(p, w, h, events, last);
      StepKeeps(p, w, Run(p, h, before).state, Run(p, h, before).log, events[last]);
    }
  }

  lemma ReadsAreSafe(p: Primitives, w: World, s: State, log: map<string, string>, k: string, r: Random)
    requires p.Lawful() && WellChosen(p, w) && Inv(p, w, s, log) && (MayMint(p, s) ==> r.key in w.keys)
    requires !IsInternal(k)
    ensures Get(p, s, k, r) in {Item(log, k), None}
    ensures !IsSensitive(k) ==> Get(p, s, k, r) == Item(log, k)
  {
    assert Matches(p, w, k, Item(s.local, k), Item(log, k));
    EnsureKeyKeeps(p, w, s, log, r.key);
    if IsSensitive(k) && k in s.local && IsEncrypted(s.local[k]) {
      OpensOrNot(p, w, s.local[k], log[k], s.sodium, EnsureKey(p, s, r.key).key);
    }
  }

  /**
    Safety. However page loads, ready events, logins, password changes, wipes,
    reads and writes are interleaved, and whichever keys are lost or replaced on the
    way, reading an entry gives the value last written to it or null, never
    anything else.
  */
  lemma ReadsNeverLie(p: Primitives, w: World, h: History, events: seq<Event>, k: string, r: Random)
    requires p.Lawful() && WellChosen(p, w) && Inv(p, w, h.state, h.log)
    requires forall i :: 0 <= i < |events| ==> PermittedAt(p, w, h, events, i)
    requires !IsInternal(k) && (MayMint(p, Run(p, h, events).state) ==> r.key in w.keys)
    ensures var end := Run(p, h, events);
            && Get(p, end.state, k, r) in {Item(end.log, k), None}
            && (!IsSensitive(k) ==> Get(p, end.state, k, r) == Item(end.log, k))
  {
    RunKeeps(p, w, h, events);
    ReadsAreSafe(p, w, Run(p, h, events).state, Run(p, h, events).log, k, r);
  }
}
