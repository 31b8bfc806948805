/** The wipe on the login page: which key is left, and what becomes of the media caches. */
module StorageWipes {
  import opened Wrappers
  import opened StorageFormats
  import opened StorageModel
  import opened StorageSafety
  import opened StorageRewriting
  import opened StorageKeys
  import opened StorageChanges

  lemma WipeFlags(p: Primitives, s: State, r: Random)
    ensures Wipe(p, s, r).sodium == s.sodium && Wipe(p, s, r).crypto == s.crypto
  {
    var s1 := AfterMediaReads(p, s, r);
    EnsureKeyFlags(p, s, r.key);
    EnsureKeyFlags(p, ClearAll(s1), r.key);
  }

  /** No key material is left in storage. */
  lemma WipeDropsKeys(p: Primitives, s: State, r: Random)
    ensures var t := Wipe(p, s, r);
            && t.session == None && DEVICE_KEY !in t.local && ENCRYPTED_PASSWORD !in t.local && LOCAL_KEY !in t.local
  {
    var s1 := AfterMediaReads(p, s, r);
    var texts, c := MediaTexts(p, s1), ClearAll(s1);
    forall k | k in texts ensures IsSensitive(k) {
      MediaIsSecret(k);
    }
    NothingInternalLeft(p, if texts == map[] then c else EnsureKey(p, c, r.key), texts, r);
  }

  /** Written without a key, the texts stay plain. */
  lemma SparedWithoutKey(p: Primitives, w: World, s1: State, s2: State, log: map<string, string>, r: Random)
    requires p.Lawful() && WellChosen(p, w) && Inv(p, w, s1, log) && s2.key == None
    ensures NothingSealed(p, Spared(p, s2, MediaTexts(p, s1), r))
  {
    var texts := MediaTexts(p, s1);
    var local := Spared(p, s2, texts, r);
    forall k | k in local && IsSensitive(k) && IsEncrypted(local[k]) ensures local[k] == EmptyText(p) {
      MediaIsSecret(k);
      MediaTextIsWritten(p, w, s1, log, k);
      assert p.encode(texts[k]) == [] <==> texts[k] == "";
    }
  }

  lemma MediaReadsHaveOneKey(p: Primitives, values: set<string>, s: State, log: map<string, string>, key: Key, r: Random) returns (own: Key)
    requires p.Lawful() && (forall v :: v in values ==> Storable(v)) && OneKey(p, values, s, log, key)
    ensures WellChosen(p, World({own}, values)) && Inv(p, World({own}, values), AfterMediaReads(p, s, r), log)
  {
    own := if Unkeyed(p, s) then r.key else key;
    if Unkeyed(p, s) {
      UnkeyedFitsAny(p, values, s, log, key, own);
    }
    MintsIffUnkeyed(p, values, s, log, own);
    AloneIsWellChosen(p, values, own);
    AfterMediaReadsKeeps(p, World({own}, values), s, log, r);
  }

  /** One key rules after a wipe too, if not the same one. */
  lemma WipeHasOneKey(p: Primitives, values: set<string>, s: State, log: map<string, string>, key: Key, r: Random) returns (next: Key)
    requires p.Lawful() && (forall v :: v in values ==> Storable(v)) && OneKey(p, values, s, log, key)
    ensures var t := Wipe(p, s, r);
            OneKey(p, values, t, Left(log, t.local), next) && (Adrift(p, t, next) || Unkeyed(p, t))
  {
    var own := MediaReadsHaveOneKey(p, values, s, log, key, r);
    var w, s1 := World({own}, values), AfterMediaReads(p, s, r);
    var texts, c := MediaTexts(p, s1), ClearAll(s1);
    var s2 := if texts == map[] then c else EnsureKey(p, c, r.key);
    next := s2.key.GetOr(own);
    AloneIsWellChosen(p, values, next);
    PreferencesStay(p, w, s1, log, texts != map[], r.key);
    SparedKeeps(p, w, World({next}, values), s1, s2, log, r);
    WipeDropsKeys(p, s, r);
    if s2.key.None? {
      SparedWithoutKey(p, w, s1, s2, log, r);
    }
  }

  // ----- What a wipe keeps -----

  lemma ReadableMedia(p: Primitives, values: set<string>, s: State, log: map<string, string>, key: Key, k: string, r: Random)
    requires p.Lawful() && (forall v :: v in values ==> Storable(v))
    requires OneKey(p, values, s, log, key) && IsMediaCache(k) && k in s.local
    ensures var readable := !IsEncrypted(s.local[k]) || (HasKey(p, s) && (s.sodium || !IsV2(s.local[k][1..])));
            k in MediaTexts(p, AfterMediaReads(p, s, r)) <==> readable
  {
    MediaIsSecret(k);
    MediaStays(p, s, k, r);
    if IsEncrypted(s.local[k]) {
      assert IsHiddenMedia(s.local, k);
      ReadableHidden(p, values, s, log, key, k, r);
    }
  }

  lemma MediaStays(p: Primitives, s: State, k: string, r: Random)
    requires IsSensitive(k)
    ensures Item(AfterMediaReads(p, s, r).local, k) == Item(s.local, k) && AfterMediaReads(p, s, r).sodium == s.sodium
  {
    EnsureKeyFlags(p, s, r.key);
    EnsureKeySpares(p, s, r.key, k);
  }

  lemma ReadableHidden(p: Primitives, values: set<string>, s: State, log: map<string, string>, key: Key, k: string, r: Random)
    requires p.Lawful() && (forall v :: v in values ==> Storable(v))
    requires OneKey(p, values, s, log, key) && IsSensitive(k) && !IsInternal(k) && k in s.local && IsEncrypted(s.local[k])
    ensures OldText(p, s.sodium, EnsureKey(p, s, r.key).key, s.local[k]).Some?
            <==> HasKey(p, s) && (s.sodium || !IsV2(s.local[k][1..]))
  {
    ReadsLastWrittenIff(p, values, s, log, key, k, r);
    assert Matches(p, World({key}, values), k, Item(s.local, k), Item(log, k));
    assert s.local[k] != log[k];
  }

  /** Which form a value is stored in. */
  lemma StoredForm(p: Primitives, sodium: bool, key: Option<Key>, v: string, nonce: Nonce)
    requires p.Lawful() && Storable(v)
    ensures var raw := Stored(p, sodium, key, nonce, v);
            && (IsEncrypted(raw) ==> (IsV2(raw[1..]) <==> sodium) && (sodium ==> key.Some?))
            && (sodium && key.Some? ==> IsEncrypted(raw))
  {
    var raw, any: Key := Stored(p, sodium, key, nonce, v), seq(32, i => 0 as bv8);
    var k := key.GetOr(any);
    FormatsAreDisjoint(p, k, nonce, v);
    if raw != v {
      assert key.None? && !sodium ==> Xor(p.encode(v), k) == [];
      assert raw[1..] == if sodium then SealV2(p, k, nonce, v) else Tagged(p, k, v);
    }
  }

  /** A media cache survives the wipe if and only if it could be read just before. */
  lemma WipeKeepsMediaIff(p: Primitives, values: set<string>, s: State, log: map<string, string>, key: Key, k: string, r: Random, r': Random)
    requires p.Lawful() && (forall v :: v in values ==> Storable(v))
    requires OneKey(p, values, s, log, key) && IsMediaCache(k) && k in s.local
    ensures var readable := !IsEncrypted(s.local[k]) || (HasKey(p, s) && (s.sodium || !IsV2(s.local[k][1..])));
            && (Get(p, Wipe(p, s, r), k, r') == Item(log, k) <==> readable)
            && (Get(p, Wipe(p, s, r), k, r') == None <==> !readable)
  {
    var t := Wipe(p, s, r);
    MediaIsSecret(k);
    assert Matches(p, World({key}, values), k, Item(s.local, k), Item(log, k));
    ReadableMedia(p, values, s, log, key, k, r);
    var next := WipeHasOneKey(p, values, s, log, key, r);
    WipeFlags(p, s, r);
    if k in t.local {
      WipedEntry(p, values, s, log, key, k, r);
      StoredForm(p, t.sodium, t.key, log[k], r.nonce(k));
      ReadsLastWrittenIff(p, values, t, Left(log, t.local), next, k, r');
    }
  }

  lemma WipedEntry(p: Primitives, values: set<string>, s: State, log: map<string, string>, key: Key, k: string, r: Random)
    requires p.Lawful() && (forall v :: v in values ==> Storable(v)) && OneKey(p, values, s, log, key)
    requires IsMediaCache(k) && k in Wipe(p, s, r).local
    ensures var t := Wipe(p, s, r);
            k in log && Storable(log[k]) && t.local[k] == Stored(p, t.sodium, t.key, r.nonce(k), log[k])
  {
    MediaIsSecret(k);
    var s1 := AfterMediaReads(p, s, r);
    var own := MediaReadsHaveOneKey(p, values, s, log, key, r);
    assert k in MediaTexts(p, s1);
    MediaTextIsWritten(p, World({own}, values), s1, log, k);
  }

  /** What was spared is safe once a login follows. */
  lemma LoginAfterWipeKeepsAll(p: Primitives, values: set<string>, s: State, log: map<string, string>, key: Key, r: Random,
                               pw: string, device: string, r': Random)
    requires p.Lawful() && (forall v :: v in values ==> Storable(v)) && OneKey(p, values, s, log, key)
    requires MayLogin(pw, device) && NewBlob(p, Wipe(p, s, r), pw, device, r').Some?
    ensures var t := Wipe(p, s, r);
            OneKey(p, values, Login(p, t, pw, device, r'), Left(log, t.local) - {OLD_PASSWORD}, p.stretch(pw))
  {
    var t := Wipe(p, s, r);
    var next := WipeHasOneKey(p, values, s, log, key, r);
    LoginWithBlob(p, values, t, Left(log, t.local), next, pw, device, r');
  }

  /** A new page that finds no key draws one, and hides the plain secrets under it. */
  lemma LoadedWithoutKey(p: Primitives, w: World, s0: State, log: map<string, string>, r: Random, k: string)
    requires p.Lawful() && (forall v :: v in w.values ==> Storable(v)) && Entries(p, w, s0.local, log) && BootstrapIsSound(s0.local)
    requires !s0.initDone && MayMint(p, s0) && !s0.pending && IsSensitive(k) && k in s0.local
    ensures var s1 := SecInit(p, s0, r);
            && s1.key == Some(r.key) && s1.sodium == s0.sodium && s1.initDone && !s1.pending && k in s1.local
            && s1.local[k] == if IsEncrypted(s0.local[k]) then s0.local[k] else Stored(p, s0.sodium, s1.key, r.nonce(k), s0.local[k])
  {
    var s1 := EnsureKey(p, s0, r.key);
    EnsureKeyChoices(p, s0, r.key);
    assert SameBut(s0.local, s1.local, LOCAL_KEY);
    LocalKeyOnly(p, s0.local, s1.local);
    EntriesSameBut(p, w, s0.local, s1.local, log);
    NothingToRepair(p, w, s1, log, r);
    assert Item(s1.local, k) == Item(s0.local, k);
    assert IsPlainSecret(s1.local, k) <==> !IsEncrypted(s0.local[k]);
  }

  /** How an entry of `key` looks under another key, once a page has started with that. */
  lemma EntryUnderDrawn(p: Primitives, key: Key, drawn: Key, raw: string, v: string, sodium: bool, nonce: Nonce)
    requires p.Lawful() && Storable(v) && (raw == v || Hides(p, key, raw, v)) && (IsEncrypted(raw) ==> IsV2(raw[1..]))
    ensures var now := if IsEncrypted(raw) then raw else Stored(p, sodium, Some(drawn), nonce, raw);
            if !IsEncrypted(raw) || drawn == key then View(p, drawn, now) == Some(v)
            else IsEncrypted(now) && DecryptInner(p, true, Some(drawn), now[1..]) == Unreadable
  {
    if raw != v {
      OpensUnderOwn(p, key, raw, v);
      if drawn != key {
        AnotherKeyFails(p, key, drawn, raw, v);
      }
    } else {
      var now := Stored(p, sodium, Some(drawn), nonce, v);
      assert sodium ==> SealedUnder(p, drawn, nonce, now, v);
      assert Hides(p, drawn, now, v);
      OpensUnderOwn(p, drawn, now, v);
    }
  }

  lemma StartedWithoutKey(p: Primitives, w: World, s: State, log: map<string, string>, keep: bool, sodium: bool, order: seq<string>,
                          r: Random, k: string)
    requires p.Lawful() && (forall v :: v in w.values ==> Storable(v)) && Entries(p, w, s.local, log) && BootstrapIsSound(s.local)
    requires MayMint(p, NewPage(s, keep, sodium, true)) && IsSensitive(k) && k in s.local
    ensures var u := Started(p, s, keep, sodium, order, r);
            var raw := if IsEncrypted(s.local[k]) then s.local[k] else Stored(p, sodium, Some(r.key), r.nonce(k), s.local[k]);
            u.key == Some(r.key) && u.sodium && k in u.local && Upgraded(p, raw, u.local[k], r.key)
  {
    var s1 := SecInit(p, NewPage(s, keep, sodium, true), r);
    LoadedWithoutKey(p, w, NewPage(s, keep, sodium, true), log, r, k);
    if !sodium {
      UpgradeUpgrades(p, s1.local, order, r.key, r, k);
    }
  }

  /**
    What was spared is lost on a page load that comes before the login: the
    key in memory is gone, so an entry reads back if and only if it was written
    plain, or the key now drawn happens to be the old one.
  */
  lemma ReloadAfterWipeKeepsIff(p: Primitives, values: set<string>, s: State, log: map<string, string>, key: Key, r: Random,
                                keep: bool, sodium: bool, order: seq<string>, r': Random, k: string, r'': Random)
    requires p.Lawful() && (forall v :: v in values ==> Storable(v))
    requires OneKey(p, values, s, log, key) && s.sodium && IsMediaCache(k) && k in Wipe(p, s, r).local
    ensures var t := Wipe(p, s, r);
            var u, kept := Started(p, t, keep, sodium, order, r'), t.key in {None, Some(r'.key)};
            && (Get(p, u, k, r'') == Item(log, k) <==> kept)
            && (Get(p, u, k, r'') == None <==> !kept)
  {
    var t := Wipe(p, s, r);
    MediaIsSecret(k);
    var next := WipeHasOneKey(p, values, s, log, key, r);
    WipedEntry(p, values, s, log, key, k, r);
    WipeFlags(p, s, r);
    WipeDropsKeys(p, s, r);
    ReloadedMedia(p, World({next}, values), t, Left(log, t.local), next, r, keep, sodium, order, r', k, log[k], r'');
  }

  /** The same for the state that the wipe leaves. */
  lemma ReloadedMedia(p: Primitives, w: World, t: State, log: map<string, string>, key: Key, r: Random, keep: bool, sodium: bool,
                      order: seq<string>, r': Random, k: string, v: string, r'': Random)
    requires p.Lawful() && (forall x :: x in w.values ==> Storable(x)) && Inv(p, w, t, log) && w.keys == {key} && IsSensitive(k)
    requires t.session == None && ENCRYPTED_PASSWORD !in t.local && LOCAL_KEY !in t.local
    requires Storable(v) && Item(log, k) == Some(v) && t.sodium && Item(t.local, k) == Some(Stored(p, true, t.key, r.nonce(k), v))
    ensures Get(p, Started(p, t, keep, sodium, order, r'), k, r'') == if t.key in {None, Some(r'.key)} then Some(v) else None
  {
    SparedByKey(p, w, t, log, key, k, v, r);
    ReadsAfterDrawing(p, w, t, log, key, keep, sodium, order, r', k, v, r'');
  }

  lemma ReadsAfterDrawing(p: Primitives, w: World, t: State, log: map<string, string>, key: Key, keep: bool, sodium: bool,
                          order: seq<string>, r: Random, k: string, v: string, r': Random)
    requires p.Lawful() && (forall v :: v in w.values ==> Storable(v)) && Entries(p, w, t.local, log) && BootstrapIsSound(t.local)
    requires MayMint(p, NewPage(t, keep, sodium, true)) && IsSensitive(k) && k in t.local
    requires Storable(v) && (t.local[k] == v || Hides(p, key, t.local[k], v)) && (IsEncrypted(t.local[k]) ==> IsV2(t.local[k][1..]))
    ensures Get(p, Started(p, t, keep, sodium, order, r), k, r') == if !IsEncrypted(t.local[k]) || r.key == key then Some(v) else None
  {
    StartedWithoutKey(p, w, t, log, keep, sodium, order, r, k);
    EntryUnderDrawn(p, key, r.key, t.local[k], v, sodium, r.nonce(k));
    ReadsView(p, Started(p, t, keep, sodium, order, r), r.key, k, r');
  }

  /** A media cache is spared under the key in memory, or plain without one. */
  lemma SparedByKey(p: Primitives, w: World, t: State, log: map<string, string>, key: Key, k: string, v: string, r: Random)
    requires p.Lawful() && Inv(p, w, t, log) && w.keys == {key} && IsSensitive(k)
    requires t.session == None && ENCRYPTED_PASSWORD !in t.local && LOCAL_KEY !in t.local
    requires Storable(v) && Item(log, k) == Some(v) && t.sodium && Item(t.local, k) == Some(Stored(p, true, t.key, r.nonce(k), v))
    ensures forall keep, sodium :: MayMint(p, NewPage(t, keep, sodium, true))
    ensures t.local[k] == v || Hides(p, key, t.local[k], v)
    ensures IsEncrypted(t.local[k]) ==> IsV2(t.local[k][1..])
    ensures t.key == if IsEncrypted(t.local[k]) then Some(key) else None
  {
    StoredForm(p, true, t.key, v, r.nonce(k));
    assert Matches(p, w, k, Item(t.local, k), Item(log, k));
  }

  // ----- What a wipe and a clear leave -----

  /** The names that every wipe spares, and those that the login page's spares as far as they can be read. */
  predicate Preferences(k: string) {
    k == "" || k == "session_duration_seconds" || k == "reauth_duration_seconds"
  }

  predicate Media(k: string) {
    "fkc_" <= k || k == "profile_key_cache" || k == "user_display_name_cache"
  }

  lemma ClearDataLeaves(s: State, k: string)
    ensures Item(ClearData(s).local, k) == if Preferences(k) then Item(s.local, k) else None
    ensures ClearData(s).session == None && ClearData(s).key == s.key
  {
  }

  /** The preferences come through the login page's wipe as they were, and nothing else but readable media caches does. */
  lemma WipeLeaves(p: Primitives, s: State, r: Random, k: string)
    ensures Preferences(k) ==> Item(Wipe(p, s, r).local, k) == Item(s.local, k)
    ensures !Preferences(k) && !Media(k) ==> k !in Wipe(p, s, r).local
    ensures Wipe(p, s, r).session == None
  {
    MediaIsSecret(k);
    var s1 := AfterMediaReads(p, s, r);
    var c := ClearAll(s1);
    if Preferences(k) {
      EnsureKeySpares(p, s, r.key, k);
      EnsureKeySpares(p, c, r.key, k);
      assert Item(c.local, k) == Item(s1.local, k);
    }
  }

  /** Clearing the secrets leaves exactly the others. */
  lemma ClearAllLeaves(s: State, k: string)
    ensures Item(ClearAll(s).local, k) == if IsSensitive(k) then None else Item(s.local, k)
    ensures ClearAll(s).session == None && ClearAll(s).key == None
  {
  }
}
