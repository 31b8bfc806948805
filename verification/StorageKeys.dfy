/** States in which one key rules: everything encrypted is under it, and it is the key the code will choose. */
module StorageKeys {
  import opened Wrappers
  import opened StorageFormats
  import opened StorageModel
  import opened StorageSafety
  import opened StorageRewriting

  /** What is stored for an empty value, with a key or without. */
  function EmptyText(p: Primitives): string {
    [MAGIC] + p.tag("") + "." + p.btoa([])
  }

  /** Nothing stored depends on a key. */
  ghost predicate NothingSealed(p: Primitives, local: map<string, string>) {
    forall k :: k in local && IsSensitive(k) && IsEncrypted(local[k]) ==> local[k] == EmptyText(p)
  }

  /** Storage leads to `key`: by the password if there is one, else by the stored random key. */
  ghost predicate LeadsTo(p: Primitives, local: map<string, string>, key: Key) {
    if ENCRYPTED_PASSWORD in local then
      HasPasswordBootstrap(local) && Derived(p, local) == Some(key) && LOCAL_KEY !in local
    else
      LOCAL_KEY in local && KeyFrom(p, Item(local, LOCAL_KEY)) == Some(key)
  }

  /** No key has been chosen yet. */
  ghost predicate Unkeyed(p: Primitives, s: State) {
    && ENCRYPTED_PASSWORD !in s.local && LOCAL_KEY !in s.local
    && s.key == None && KeyFrom(p, s.session) == None
    && NothingSealed(p, s.local)
  }

  /** The key is in memory or in the session, and nothing in storage leads to it. */
  predicate Adrift(p: Primitives, s: State, key: Key) {
    ENCRYPTED_PASSWORD !in s.local && LOCAL_KEY !in s.local && CurrentKey(p, s) == Some(key)
  }

  ghost predicate Rules(p: Primitives, s: State, key: Key) {
    LeadsTo(p, s.local, key) || Unkeyed(p, s) || Adrift(p, s, key)
  }

  /** Everything encrypted is encrypted under `key`, and `key` is the one that will be chosen. */
  ghost predicate OneKey(p: Primitives, values: set<string>, s: State, log: map<string, string>, key: Key) {
    Inv(p, World({key}, values), s, log) && Rules(p, s, key)
  }

  lemma AloneIsWellChosen(p: Primitives, values: set<string>, key: Key)
    requires p.Lawful() && forall v :: v in values ==> Storable(v)
    ensures WellChosen(p, World({key}, values))
  {
    forall v | v in values ensures TellsApart(p, v, key, key) {
      TaggedOpens(p, key, key, v);
    }
    assert key in {key};
  }

  // ----- One key through one step -----

  lemma MintsIffUnkeyed(p: Primitives, values: set<string>, s: State, log: map<string, string>, key: Key)
    requires OneKey(p, values, s, log, key)
    ensures MayMint(p, s) == Unkeyed(p, s)
  {
  }

  lemma EmptyTextHides(p: Primitives, key: Key, other: Key, v: string)
    requires p.Lawful() && Hides(p, key, EmptyText(p), v) && Storable(v)
    ensures v == "" && Hides(p, other, EmptyText(p), v)
  {
    assert Xor(p.encode(""), key) == [] && Xor(p.encode(""), other) == [];
    assert EmptyText(p) == [MAGIC] + Tagged(p, key, "") && EmptyText(p) == [MAGIC] + Tagged(p, other, "");
    OpensUnderOwn(p, key, EmptyText(p), v);
    OpensUnderOwn(p, key, EmptyText(p), "");
  }

  lemma EmptyTextIsTagged(p: Primitives)
    requires p.Lawful()
    ensures IsEncrypted(EmptyText(p)) && !IsV2(EmptyText(p)[1..])
  {
    var key: Key := seq(32, i => 0 as bv8);
    FormatsAreDisjoint(p, key, seq(24, i => 0 as bv8), "");
    assert Xor(p.encode(""), key) == [];
    assert EmptyText(p)[1..] == Tagged(p, key, "");
  }

  /** With nothing that depends on a key, any key will do. */
  lemma UnkeyedFitsAny(p: Primitives, values: set<string>, s: State, log: map<string, string>, key: Key, other: Key)
    requires OneKey(p, values, s, log, key) && Unkeyed(p, s)
    requires p.Lawful() && forall v :: v in values ==> Storable(v)
    ensures OneKey(p, values, s, log, other)
  {
    var w := World({key}, values);
    AloneIsWellChosen(p, values, key);
    forall k | !IsInternal(k) ensures Matches(p, World({other}, values), k, Item(s.local, k), Item(log, k)) {
      assert Matches(p, w, k, Item(s.local, k), Item(log, k));
      if k in s.local && s.local[k] != log[k] {
        OpensOrNot(p, w, s.local[k], log[k], false, None);
        EmptyTextHides(p, key, other, log[k]);
      }
    }
  }

  lemma SameLead(p: Primitives, a: map<string, string>, b: map<string, string>, key: Key)
    requires LeadsTo(p, a, key) && forall k :: IsInternal(k) ==> Item(b, k) == Item(a, k)
    ensures LeadsTo(p, b, key)
  {
    assert Item(a, DEVICE_KEY) == Item(b, DEVICE_KEY);
    assert Item(a, ENCRYPTED_PASSWORD) == Item(b, ENCRYPTED_PASSWORD);
    assert Item(a, LOCAL_KEY) == Item(b, LOCAL_KEY);
  }

  lemma EnsureKeyLeads(p: Primitives, s: State, key: Key, minted: Key)
    requires p.Lawful() && BootstrapIsSound(s.local) && Known(World({key}, {}), CurrentKey(p, s))
    requires LeadsTo(p, s.local, key) || (Unkeyed(p, s) && minted == key)
    ensures LeadsTo(p, EnsureKey(p, s, minted).local, key)
    ensures BootstrapIsSound(EnsureKey(p, s, minted).local)
    ensures Known(World({key}, {}), CurrentKey(p, EnsureKey(p, s, minted)))
  {
    EnsureKeyChoices(p, s, minted);
    KeyFromStored(p, minted);
    var after := EnsureKey(p, s, minted).local;
    if LeadsTo(p, s.local, key) {
      assert Item(after, LOCAL_KEY) == Item(s.local, LOCAL_KEY);
      SameLead(p, s.local, after, key);
    }
  }

  /** Asking for the key finds the one at hand. */
  lemma EnsureKeyAdrift(p: Primitives, s: State, key: Key, minted: Key)
    requires p.Lawful() && Adrift(p, s, key)
    ensures var s' := EnsureKey(p, s, minted);
            s'.local == s.local && s'.key == Some(key) && Adrift(p, s', key)
  {
  }

  lemma SecInitAdrift(p: Primitives, w: World, s: State, log: map<string, string>, key: Key, r: Random)
    requires p.Lawful() && (forall v :: v in w.values ==> Storable(v)) && Entries(p, w, s.local, log) && BootstrapIsSound(s.local)
    requires Adrift(p, s, key)
    ensures Adrift(p, SecInit(p, s, r), key)
  {
    if !s.initDone {
      var s1 := EnsureKey(p, s, r.key);
      EnsureKeyAdrift(p, s, key, r.key);
      NothingToRepair(p, w, s1, log, r);
      EnsureKeyAdrift(p, s1, key, r.key);
      assert Migrated(p, EnsureKey(p, s1, r.key), r).Keys == s1.local.Keys;
    }
  }

  lemma SecInitLeads(p: Primitives, values: set<string>, s: State, log: map<string, string>, key: Key, r: Random)
    requires p.Lawful() && (forall v :: v in values ==> Storable(v))
    requires OneKey(p, values, s, log, key) && (Unkeyed(p, s) ==> r.key == key)
    ensures Rules(p, SecInit(p, s, r), key)
  {
    var w := World({key}, values);
    if Adrift(p, s, key) {
      SecInitAdrift(p, w, s, log, key, r);
    } else if !s.initDone {
      AloneIsWellChosen(p, values, key);
      MintsIffUnkeyed(p, values, s, log, key);
      var s1 := EnsureKey(p, s, r.key);
      EnsureKeyKeeps(p, w, s, log, r.key);
      EnsureKeyLeads(p, s, key, r.key);
      NothingToRepair(p, w, s1, log, r);
      MigrateLeads(p, s1, key, r);
    }
  }

  lemma SecInitOneKey(p: Primitives, values: set<string>, s: State, log: map<string, string>, key: Key, r: Random)
    requires p.Lawful() && (forall v :: v in values ==> Storable(v))
    requires OneKey(p, values, s, log, key) && (Unkeyed(p, s) ==> r.key == key)
    ensures OneKey(p, values, SecInit(p, s, r), log, key)
  {
    AloneIsWellChosen(p, values, key);
    MintsIffUnkeyed(p, values, s, log, key);
    SecInitKeeps(p, World({key}, values), s, log, r);
    SecInitLeads(p, values, s, log, key, r);
  }

  lemma MigrateLeads(p: Primitives, s: State, key: Key, r: Random)
    requires p.Lawful() && BootstrapIsSound(s.local) && Known(World({key}, {}), CurrentKey(p, s))
    requires LeadsTo(p, s.local, key)
    ensures LeadsTo(p, Migrate(p, s, r).local, key)
  {
    if exists k :: IsPlainSecret(s.local, k) {
      var s1 := EnsureKey(p, s, r.key);
      EnsureKeyLeads(p, s, key, r.key);
      SameLead(p, s1.local, Migrated(p, s1, r), key);
    }
  }

  lemma RedriveLeads(p: Primitives, s: State, key: Key)
    requires BootstrapIsSound(s.local) && LeadsTo(p, s.local, key)
    ensures LeadsTo(p, Redrive(p, s).local, key)
  {
    TryDeriveIs(p, s);
    var after := Redrive(p, s).local;
    assert Item(after, LOCAL_KEY) == Item(s.local, LOCAL_KEY);
    SameLead(p, s.local, after, key);
  }

  lemma ReKeyLeads(p: Primitives, s: State, key: Key, r: Random)
    requires BootstrapIsSound(s.local) && LeadsTo(p, s.local, key)
    ensures LeadsTo(p, ReKey(p, s, r).local, key)
  {
    TryDeriveIs(p, s.(key := None, session := None));
    var after := ReKey(p, s, r).local;
    assert Item(after, LOCAL_KEY) == Item(s.local, LOCAL_KEY);
    SameLead(p, s.local, after, key);
  }

  lemma SodiumCallbackLeads(p: Primitives, values: set<string>, s: State, log: map<string, string>, key: Key,
                            order: seq<string>, r: Random)
    requires p.Lawful() && (forall v :: v in values ==> Storable(v))
    requires OneKey(p, values, s, log, key) && (Unkeyed(p, s) ==> r.key == key)
    ensures Rules(p, SodiumCallback(p, s, order, r), key)
  {
    var w := World({key}, values);
    AloneIsWellChosen(p, values, key);
    var s1 := if s.pending then Redrive(p, s) else s;
    RedriveKeeps(p, w, s, log);
    UpgradeKeeps(p, w, s1, log, order, r);
    var up := UpgradeToAead(p, s1, order, r);
    if LeadsTo(p, s.local, key) {
      RedriveLeads(p, s, key);
      SameLead(p, s1.local, up.local, key);
    }
    SecInitLeads(p, values, s1.(local := up.local), log, key, r);
  }

  /** Events after which another key may rule. */
  predicate ReplacesKey(a: Action) {
    a.Logins? || a.StoresPassword? || a.ChangesPassword? || a.Wipes? || a.ClearsData?
  }

  /** Every other step, unless it drops a key that nothing in storage leads to. */
  lemma StepKeepsKey(p: Primitives, values: set<string>, s: State, log: map<string, string>, key: Key, e: Event)
    requires p.Lawful() && (forall v :: v in values ==> Storable(v))
    requires OneKey(p, values, s, log, key) && Permitted(p, World({key}, values), s, e) && !ReplacesKey(e.action)
    requires e.action.Load? || e.action.Rekeys? ==> !Adrift(p, s, key)
    ensures OneKey(p, values, Step(p, s, e), Written(p, s, log, e), key)
  {
    AloneIsWellChosen(p, values, key);
    StepKeeps(p, World({key}, values), s, log, e);
    StepLeads(p, values, s, log, key, e);
  }

  lemma StepLeads(p: Primitives, values: set<string>, s: State, log: map<string, string>, key: Key, e: Event)
    requires p.Lawful() && (forall v :: v in values ==> Storable(v))
    requires OneKey(p, values, s, log, key) && Permitted(p, World({key}, values), s, e) && !ReplacesKey(e.action)
    requires e.action.Load? || e.action.Rekeys? ==> !Adrift(p, s, key)
    ensures Rules(p, Step(p, s, e), key)
  {
    if Asks(e.action) {
      AskingStepLeads(p, values, s, log, key, e);
    } else if LeadsTo(p, s.local, key) {
      KeyedStepLeads(p, values, s, log, key, e);
    } else {
      LooseStepLeads(p, values, s, log, key, e);
    }
  }

  /** Events that ask for the key. */
  predicate Asks(a: Action) {
    a.Load? || a.SodiumIsReady? || a.Sets? || a.Gets?
  }

  lemma AskingStepLeads(p: Primitives, values: set<string>, s: State, log: map<string, string>, key: Key, e: Event)
    requires p.Lawful() && (forall v :: v in values ==> Storable(v))
    requires OneKey(p, values, s, log, key) && Permitted(p, World({key}, values), s, e) && Asks(e.action)
    requires e.action.Load? ==> !Adrift(p, s, key)
    ensures Rules(p, Step(p, s, e), key)
  {
    var r := e.random;
    match e.action
    case Load(keep, sodium, crypto) => LoadLeads(p, values, s, NewPage(s, keep, sodium, crypto), log, key, r);
    case SodiumIsReady =>
      MintsIffUnkeyed(p, values, s, log, key);
      SodiumCallbackLeads(p, values, s, log, key, e.order, r);
    case Sets(k, v) =>
      MintsIffUnkeyed(p, values, s, log, key);
      SetLeads(p, s, key, k, v, r);
    case Gets(k) =>
      MintsIffUnkeyed(p, values, s, log, key);
      AskedLeads(p, s, key, r.key);
  }

  lemma LoadLeads(p: Primitives, values: set<string>, s: State, s0: State, log: map<string, string>, key: Key, r: Random)
    requires p.Lawful() && (forall v :: v in values ==> Storable(v)) && OneKey(p, values, s, log, key) && !Adrift(p, s, key)
    requires s0.local == s.local && s0.session in {None, s.session} && s0.key == None && (MayMint(p, s0) ==> r.key == key)
    ensures Rules(p, SecInit(p, s0, r), key)
  {
    MintsIffUnkeyed(p, values, s0, log, key);
    SecInitLeads(p, values, s0, log, key, r);
  }

  lemma AskedLeads(p: Primitives, s: State, key: Key, minted: Key)
    requires p.Lawful() && BootstrapIsSound(s.local) && Known(World({key}, {}), CurrentKey(p, s))
    requires Rules(p, s, key) && (Unkeyed(p, s) ==> minted == key)
    ensures Rules(p, EnsureKey(p, s, minted), key)
  {
    if Adrift(p, s, key) {
      EnsureKeyAdrift(p, s, key, minted);
    } else {
      EnsureKeyLeads(p, s, key, minted);
    }
  }

  /** Without a blob and without a stored key nothing can be derived. */
  lemma LooseStepLeads(p: Primitives, values: set<string>, s: State, log: map<string, string>, key: Key, e: Event)
    requires p.Lawful() && (forall v :: v in values ==> Storable(v))
    requires OneKey(p, values, s, log, key) && !LeadsTo(p, s.local, key) && Permitted(p, World({key}, values), s, e)
    requires !Asks(e.action) && !ReplacesKey(e.action)
    requires e.action.Rekeys? ==> !Adrift(p, s, key)
    ensures Rules(p, Step(p, s, e), key)
  {
    match e.action
    case SodiumLoads =>
    case CryptoLoads =>
    case Redrives =>
    case Upgrades => LooseUpgradeLeads(p, values, s, log, key, e.order, e.random);
    case Rekeys =>
    case Removes(k) => assert Item(s.local - {k}, LOCAL_KEY) == None;
  }

  lemma LooseUpgradeLeads(p: Primitives, values: set<string>, s: State, log: map<string, string>, key: Key, order: seq<string>, r: Random)
    requires p.Lawful() && (forall v :: v in values ==> Storable(v)) && OneKey(p, values, s, log, key) && !LeadsTo(p, s.local, key)
    ensures Rules(p, s.(local := UpgradeToAead(p, s, order, r).local), key)
  {
    AloneIsWellChosen(p, values, key);
    UpgradeKeeps(p, World({key}, values), s, log, order, r);
    var local := UpgradeToAead(p, s, order, r).local;
    assert Item(local, LOCAL_KEY) == Item(s.local, LOCAL_KEY);
    assert Item(local, ENCRYPTED_PASSWORD) == Item(s.local, ENCRYPTED_PASSWORD);
  }

  lemma UpgradeLeads(p: Primitives, values: set<string>, s: State, log: map<string, string>, key: Key, order: seq<string>, r: Random)
    requires p.Lawful() && (forall v :: v in values ==> Storable(v)) && OneKey(p, values, s, log, key) && LeadsTo(p, s.local, key)
    ensures LeadsTo(p, UpgradeToAead(p, s, order, r).local, key)
  {
    AloneIsWellChosen(p, values, key);
    UpgradeKeeps(p, World({key}, values), s, log, order, r);
    SameLead(p, s.local, UpgradeToAead(p, s, order, r).local, key);
  }

  lemma KeyedStepLeads(p: Primitives, values: set<string>, s: State, log: map<string, string>, key: Key, e: Event)
    requires p.Lawful() && (forall v :: v in values ==> Storable(v))
    requires OneKey(p, values, s, log, key) && LeadsTo(p, s.local, key) && Permitted(p, World({key}, values), s, e)
    requires !Asks(e.action) && !ReplacesKey(e.action)
    ensures LeadsTo(p, Step(p, s, e).local, key)
  {
    var s' := Step(p, s, e);
    match e.action
    case SodiumLoads =>
    case CryptoLoads =>
    case Redrives => RedriveLeads(p, s, key);
    case Upgrades => UpgradeLeads(p, values, s, log, key, e.order, e.random);
    case Rekeys => ReKeyLeads(p, s, key, e.random);
    case Removes(k) => SameLead(p, s.local, s'.local, key);
  }

  lemma AskedTwiceLeads(p: Primitives, s: State, key: Key, minted: Key)
    requires p.Lawful() && BootstrapIsSound(s.local) && Known(World({key}, {}), CurrentKey(p, s))
    requires LeadsTo(p, s.local, key) || (Unkeyed(p, s) && minted == key)
    ensures LeadsTo(p, EnsureKey(p, EnsureKey(p, s, minted), minted).local, key)
  {
    EnsureKeyLeads(p, s, key, minted);
    EnsureKeyLeads(p, EnsureKey(p, s, minted), key, minted);
  }

  lemma SetAdrift(p: Primitives, s: State, key: Key, k: string, v: string, r: Random)
    requires p.Lawful() && Adrift(p, s, key) && !IsInternal(k)
    ensures Adrift(p, Set(p, s, k, v, r), key)
  {
    EnsureKeyAdrift(p, s, key, r.key);
    EnsureKeyAdrift(p, EnsureKey(p, s, r.key), key, r.key);
  }

  lemma SetSecretLeads(p: Primitives, s: State, key: Key, k: string, v: string, r: Random)
    requires p.Lawful() && BootstrapIsSound(s.local) && Known(World({key}, {}), CurrentKey(p, s)) && IsSensitive(k)
    requires LeadsTo(p, s.local, key) || (Unkeyed(p, s) && r.key == key)
    ensures LeadsTo(p, Set(p, s, k, v, r).local, key)
  {
    AskedTwiceLeads(p, s, key, r.key);
    var s1 := EnsureKey(p, EnsureKey(p, s, r.key), r.key);
    SameLead(p, s1.local, Set(p, s, k, v, r).local, key);
  }

  lemma SetLeads(p: Primitives, s: State, key: Key, k: string, v: string, r: Random)
    requires p.Lawful() && BootstrapIsSound(s.local) && Known(World({key}, {}), CurrentKey(p, s)) && !IsInternal(k)
    requires Rules(p, s, key) && (Unkeyed(p, s) ==> r.key == key)
    ensures Rules(p, Set(p, s, k, v, r), key)
  {
    if Adrift(p, s, key) {
      SetAdrift(p, s, key, k, v, r);
    } else if IsSensitive(k) {
      SetSecretLeads(p, s, key, k, v, r);
    } else {
      SetOtherLeads(p, s, key, k, v, r);
    }
  }

  lemma SetOtherLeads(p: Primitives, s: State, key: Key, k: string, v: string, r: Random)
    requires !IsInternal(k) && !IsSensitive(k) && (LeadsTo(p, s.local, key) || Unkeyed(p, s))
    ensures LeadsTo(p, Set(p, s, k, v, r).local, key) || Unkeyed(p, Set(p, s, k, v, r))
  {
    if LeadsTo(p, s.local, key) {
      SameLead(p, s.local, Set(p, s, k, v, r).local, key);
    }
  }

  // ----- Logging in -----

  /** The key is at hand, or the password has not changed, or there is nothing to lose. */
  ghost predicate LoginIsTimely(p: Primitives, s: State, pw: string) {
    CurrentKey(p, s).Some? || Derived(p, s.local) == Some(p.stretch(pw)) || Unkeyed(p, s)
  }

  lemma LoginWithoutBlob(p: Primitives, values: set<string>, s: State, log: map<string, string>, key: Key,
                         pw: string, device: string, r: Random)
    requires p.Lawful() && (forall v :: v in values ==> Storable(v))
    requires OneKey(p, values, s, log, key) && MayLogin(pw, device) && NewBlob(p, s, pw, device, r).None?
    requires Adrift(p, s, key) ==> NothingSealed(p, s.local)
    ensures OneKey(p, values, Login(p, s, pw, device, r), log, key)
  {
    var w, t := World({key}, values), WithBlob(p, s, pw, device, r);
    AloneIsWellChosen(p, values, key);
    NoBlobDerives(p, s, pw, device, r);
    WithBlobEntries(p, w, s, log, pw, device, r);
    assert Inv(p, w, t, log);
    ReKeyKeeps(p, w, t, log, r);
    if LeadsTo(p, s.local, key) {
      ReKeyLeads(p, t, key, r);
    } else {
      assert forall k :: k != DEVICE_KEY ==> Item(t.local, k) == Item(s.local, k);
      assert NothingSealed(p, t.local);
    }
  }

  /** What a rekey makes of an entry. */
  function Carried(p: Primitives, raw: string, at: Option<Key>, d: Key, nonce: Nonce): string {
    var text := OldText(p, true, at, raw);
    if text.Some? then [MAGIC] + SealV2(p, d, nonce, text.value) else raw
  }

  /** What one entry becomes: hidden under the new key, unless its old key is not at hand. */
  lemma LoginEntry(p: Primitives, values: set<string>, k: string, raw: string, v: string, key: Key, at: Option<Key>,
                   d: Key, nonce: Nonce)
    requires p.Lawful() && (forall x :: x in values ==> Storable(x))
    requires Holds(p, World({key}, values), k, raw, v) && IsSensitive(k) && at in {None, Some(key)}
    requires at == Some(key) || key == d || !IsEncrypted(raw)
    ensures Holds(p, World({d}, values), k, Carried(p, raw, at, d, nonce), v)
  {
    var w := World({key}, values);
    AloneIsWellChosen(p, values, key);
    if raw != v {
      OpensUnderOwn(p, key, raw, v);
    }
    if OldText(p, true, at, raw).Some? {
      RekeyedEntry(p, w, k, raw, v, at, d, nonce);
    }
  }

  lemma LoginWithBlob(p: Primitives, values: set<string>, s: State, log: map<string, string>, key: Key,
                      pw: string, device: string, r: Random)
    requires p.Lawful() && (forall v :: v in values ==> Storable(v))
    requires OneKey(p, values, s, log, key) && MayLogin(pw, device) && NewBlob(p, s, pw, device, r).Some?
    requires LoginIsTimely(p, s, pw)
    ensures OneKey(p, values, Login(p, s, pw, device, r), log - {OLD_PASSWORD}, p.stretch(pw))
  {
    if Unkeyed(p, s) {
      UnkeyedFitsAny(p, values, s, log, key, p.stretch(pw));
      LoginMoves(p, values, s, log, p.stretch(pw), pw, device, r);
    } else {
      LoginMoves(p, values, s, log, key, pw, device, r);
    }
  }

  lemma LoginMoves(p: Primitives, values: set<string>, s: State, log: map<string, string>, key: Key,
                   pw: string, device: string, r: Random)
    requires p.Lawful() && (forall v :: v in values ==> Storable(v))
    requires Inv(p, World({key}, values), s, log) && MayLogin(pw, device) && NewBlob(p, s, pw, device, r).Some?
    requires CurrentKey(p, s) == Some(key) || (CurrentKey(p, s) == None && key == p.stretch(pw))
    ensures OneKey(p, values, Login(p, s, pw, device, r), log - {OLD_PASSWORD}, p.stretch(pw))
  {
    var t, d := WithBlob(p, s, pw, device, r), p.stretch(pw);
    WithBlobEntries(p, World({key}, values), s, log, pw, device, r);
    NewBlobDerives(p, s, pw, device, r);
    LoginLocal(p, s, pw, device, r);
    LoginEntries(p, values, t, log - {OLD_PASSWORD}, key, CurrentKey(p, s), d, r);
    KeyFromStored(p, d);
  }

  lemma LoginEntries(p: Primitives, values: set<string>, t: State, log: map<string, string>, key: Key, at: Option<Key>, d: Key, r: Random)
    requires p.Lawful() && (forall v :: v in values ==> Storable(v)) && Entries(p, World({key}, values), t.local, log) && t.sodium
    requires at in {None, Some(key)} && (at == Some(key) || key == d)
    ensures Entries(p, World({d}, values), Rekeyed(p, t, at, d, r), log)
  {
    var after := Rekeyed(p, t, at, d, r);
    forall k | !IsInternal(k) ensures Matches(p, World({d}, values), k, Item(after, k), Item(log, k)) {
      assert Matches(p, World({key}, values), k, Item(t.local, k), Item(log, k));
      if k in t.local && IsSensitive(k) {
        LoginEntry(p, values, k, t.local[k], log[k], key, at, d, r.nonce(k));
      }
    }
  }

  lemma WithBlobSound(p: Primitives, s: State, pw: string, device: string, r: Random)
    requires p.Lawful() && BootstrapIsSound(s.local) && MayLogin(pw, device) && NewBlob(p, s, pw, device, r).Some?
    ensures var t := WithBlob(p, s, pw, device, r);
            BootstrapIsSound(t.local) && Derived(p, t.local) == Some(p.stretch(pw)) && Item(t.local, LOCAL_KEY) == Item(s.local, LOCAL_KEY)
  {
    NewBlobDerives(p, s, pw, device, r);
  }

  lemma LoginLocal(p: Primitives, s: State, pw: string, device: string, r: Random)
    requires p.Lawful() && BootstrapIsSound(s.local) && MayLogin(pw, device) && NewBlob(p, s, pw, device, r).Some?
    ensures var t, s', d := WithBlob(p, s, pw, device, r), Login(p, s, pw, device, r), p.stretch(pw);
            && s'.key == Some(d) && s'.session == Some(p.btoa(d)) && s'.sodium && s'.crypto
            && s'.local == Rekeyed(p, t, CurrentKey(p, s), d, r)
            && ENCRYPTED_PASSWORD in s'.local && LOCAL_KEY !in s'.local
            && HasPasswordBootstrap(s'.local) && Derived(p, s'.local) == Some(d) && BootstrapIsSound(s'.local)
  {
    var t, d := WithBlob(p, s, pw, device, r), p.stretch(pw);
    NewBlobDerives(p, s, pw, device, r);
    WithBlobSound(p, s, pw, device, r);
    ReKeyIs(p, t, d, r);
    assert CurrentKey(p, t) == CurrentKey(p, s);
    RekeyedInternal(p, t, CurrentKey(p, s), d, r);
  }

  /** With both libraries there, a login ends with the key of its password, cached and derivable, and with no other. */
  lemma LoginTakesHold(p: Primitives, s: State, pw: string, device: string, r: Random)
    requires p.Lawful() && BootstrapIsSound(s.local) && MayLogin(pw, device) && s.crypto && s.sodium
    requires forall n: Nonce, device: string :: p.wrap(n, pw, device).Some?
    ensures var s' := Login(p, s, pw, device, r);
            && s'.key == Some(p.stretch(pw)) && s'.session == Some(p.btoa(p.stretch(pw)))
            && TryDerive(p, s') == Some(p.stretch(pw)) && LOCAL_KEY !in s'.local
  {
    LoginLocal(p, s, pw, device, r);
    TryDeriveIs(p, Login(p, s, pw, device, r));
  }

  lemma ReKeyIs(p: Primitives, s: State, d: Key, r: Random)
    requires BootstrapIsSound(s.local) && s.crypto && s.sodium && Derived(p, s.local) == Some(d)
    ensures ReKey(p, s, r) == s.(key := Some(d), session := Some(p.btoa(d)), local := Rekeyed(p, s, CurrentKey(p, s), d, r))
  {
    var s1 := s.(key := None, session := None);
    TryDeriveIs(p, s1);
    assert Rekeyed(p, s1, CurrentKey(p, s), d, r) == Rekeyed(p, s, CurrentKey(p, s), d, r);
  }

  /** The blob and the device key stay, the random key goes. */
  lemma RekeyedInternal(p: Primitives, s: State, previous: Option<Key>, d: Key, r: Random)
    ensures var local := Rekeyed(p, s, previous, d, r);
            && LOCAL_KEY !in local
            && (ENCRYPTED_PASSWORD in local <==> ENCRYPTED_PASSWORD in s.local)
            && HasPasswordBootstrap(local) == HasPasswordBootstrap(s.local) && Derived(p, local) == Derived(p, s.local)
            && (BootstrapIsSound(s.local) ==> BootstrapIsSound(local))
  {
    var local := Rekeyed(p, s, previous, d, r);
    assert Item(local, ENCRYPTED_PASSWORD) == Item(s.local, ENCRYPTED_PASSWORD);
    assert Item(local, DEVICE_KEY) == Item(s.local, DEVICE_KEY);
  }

  /**
    Who keeps what at a login: with the key at hand everything is re-encrypted;
    without it, a v2 entry survives only a password that derives the same key.
  */
  lemma LoginKeepsEntryIff(p: Primitives, values: set<string>, s: State, log: map<string, string>, key: Key,
                           pw: string, device: string, r: Random, k: string, r': Random)
    requires p.Lawful() && (forall v :: v in values ==> Storable(v))
    requires OneKey(p, values, s, log, key) && MayLogin(pw, device) && NewBlob(p, s, pw, device, r).Some?
    requires k in s.local && IsSensitive(k) && k != OLD_PASSWORD
    requires IsEncrypted(s.local[k]) ==> IsV2(s.local[k][1..])
    ensures var kept := CurrentKey(p, s).Some? || Derived(p, s.local) == Some(p.stretch(pw)) || !IsEncrypted(s.local[k]);
            && (Get(p, Login(p, s, pw, device, r), k, r') == Item(log, k) <==> kept)
            && (Get(p, Login(p, s, pw, device, r), k, r') == None <==> !kept)
  {
    assert Matches(p, World({key}, values), k, Item(s.local, k), Item(log, k));
    LoginGets(p, values, s, key, pw, device, r, k, log[k], r');
    if IsEncrypted(s.local[k]) && CurrentKey(p, s).None? {
      KeptAtLogin(p, values, s, log, key, p.stretch(pw), k);
    }
  }

  lemma LoginGets(p: Primitives, values: set<string>, s: State, key: Key, pw: string, device: string, r: Random,
                  k: string, v: string, r': Random)
    requires p.Lawful() && (forall x :: x in values ==> Storable(x)) && BootstrapIsSound(s.local)
    requires CurrentKey(p, s) in {None, Some(key)} && MayLogin(pw, device) && NewBlob(p, s, pw, device, r).Some?
    requires k in s.local && IsSensitive(k) && k != OLD_PASSWORD && (IsEncrypted(s.local[k]) ==> IsV2(s.local[k][1..]))
    requires Holds(p, World({key}, values), k, s.local[k], v)
    ensures Get(p, Login(p, s, pw, device, r), k, r') ==
            if CurrentKey(p, s).Some? || key == p.stretch(pw) || !IsEncrypted(s.local[k]) then Some(v) else None
  {
    AfterLogin(p, s, pw, device, r, k);
    RekeyedGets(p, values, Login(p, s, pw, device, r), p.stretch(pw), k, s.local[k], v, key, CurrentKey(p, s), r.nonce(k), r');
  }

  lemma ReadsView(p: Primitives, s: State, d: Key, k: string, r: Random)
    requires s.key == Some(d) && s.sodium && IsSensitive(k) && k in s.local
    ensures View(p, d, s.local[k]).Some? ==> Get(p, s, k, r) == View(p, d, s.local[k])
    ensures IsEncrypted(s.local[k]) && DecryptInner(p, true, Some(d), s.local[k][1..]) == Unreadable ==> Get(p, s, k, r) == None
  {
  }

  lemma RekeyedGets(p: Primitives, values: set<string>, s: State, d: Key, k: string, raw: string, v: string, key: Key,
                    at: Option<Key>, nonce: Nonce, r: Random)
    requires p.Lawful() && (forall x :: x in values ==> Storable(x))
    requires Holds(p, World({key}, values), k, raw, v) && IsSensitive(k) && at in {None, Some(key)}
    requires IsEncrypted(raw) ==> IsV2(raw[1..])
    requires s.key == Some(d) && s.sodium && k in s.local
    requires s.local[k] == Carried(p, raw, at, d, nonce)
    ensures Get(p, s, k, r) == if at.Some? || key == d || !IsEncrypted(raw) then Some(v) else None
  {
    LoginShows(p, values, k, raw, v, key, at, d, nonce);
    ReadsView(p, s, d, k, r);
  }

  /** Whether the old key is needed at all. */
  lemma KeptAtLogin(p: Primitives, values: set<string>, s: State, log: map<string, string>, key: Key, d: Key, k: string)
    requires p.Lawful() && OneKey(p, values, s, log, key)
    requires k in s.local && IsSensitive(k) && IsEncrypted(s.local[k]) && IsV2(s.local[k][1..]) && CurrentKey(p, s).None?
    ensures Derived(p, s.local) == Some(d) <==> key == d
  {
    EmptyTextIsTagged(p);
  }

  lemma LoginShows(p: Primitives, values: set<string>, k: string, raw: string, v: string, key: Key, at: Option<Key>,
                   d: Key, nonce: Nonce)
    requires p.Lawful() && (forall x :: x in values ==> Storable(x))
    requires Holds(p, World({key}, values), k, raw, v) && IsSensitive(k) && at in {None, Some(key)}
    requires IsEncrypted(raw) ==> IsV2(raw[1..])
    ensures var after := Carried(p, raw, at, d, nonce);
            if at == Some(key) || key == d || !IsEncrypted(raw) then View(p, d, after) == Some(v)
            else IsEncrypted(after) && DecryptInner(p, true, Some(d), after[1..]) == Unreadable
  {
    if at == Some(key) || key == d || !IsEncrypted(raw) {
      LoginEntry(p, values, k, raw, v, key, at, d, nonce);
      var after := Carried(p, raw, at, d, nonce);
      if after != v {
        OpensUnderOwn(p, d, after, v);
      }
    } else {
      AnotherKeyFails(p, key, d, raw, v);
    }
  }

  lemma AfterLogin(p: Primitives, s: State, pw: string, device: string, r: Random, k: string)
    requires p.Lawful() && BootstrapIsSound(s.local) && MayLogin(pw, device) && NewBlob(p, s, pw, device, r).Some?
    requires k in s.local && IsSensitive(k) && k != OLD_PASSWORD
    ensures var s', d := Login(p, s, pw, device, r), p.stretch(pw);
            && s'.key == Some(d) && s'.sodium && k in s'.local
            && s'.local[k] == Carried(p, s.local[k], CurrentKey(p, s), d, r.nonce(k))
  {
    LoginLocal(p, s, pw, device, r);
    BlobSpares(p, s, pw, device, r, k);
    RekeyedAt(p, WithBlob(p, s, pw, device, r), CurrentKey(p, s), p.stretch(pw), r, k, s.local[k]);
  }

  lemma BlobSpares(p: Primitives, s: State, pw: string, device: string, r: Random, k: string)
    requires NewBlob(p, s, pw, device, r).Some? && IsSensitive(k) && k != OLD_PASSWORD
    ensures var t := WithBlob(p, s, pw, device, r);
            t.sodium && Item(t.local, k) == Item(s.local, k)
  {
  }

  lemma RekeyedAt(p: Primitives, t: State, at: Option<Key>, d: Key, r: Random, k: string, raw: string)
    requires IsSensitive(k) && Item(t.local, k) == Some(raw) && t.sodium
    ensures var after := Rekeyed(p, t, at, d, r);
            k in after && after[k] == Carried(p, raw, at, d, r.nonce(k))
  {
  }

  lemma AnotherKeyFails(p: Primitives, key: Key, tried: Key, raw: string, v: string)
    requires p.Lawful() && tried != key && Hides(p, key, raw, v) && IsEncrypted(raw) && IsV2(raw[1..])
    ensures DecryptInner(p, true, Some(tried), raw[1..]) == Unreadable
  {
    FormatsAreDisjoint(p, key, seq(24, i => 0 as bv8), v);
    assert ([MAGIC] + Tagged(p, key, v))[1..] == Tagged(p, key, v);
    var n: Nonce :| SealedUnder(p, key, n, raw, v);
    V2Opens(p, key, tried, n, v);
    assert raw[1..] == SealV2(p, key, n, v);
  }

  // ----- Reading -----

  /** A key is cached, or may be drawn, or can be derived. */
  predicate HasKey(p: Primitives, s: State) {
    CurrentKey(p, s).Some? || !HasPasswordBootstrap(s.local) || (s.crypto && s.sodium)
  }

  /** While one key rules, an entry reads back exactly when its format can be opened at this moment. */
  lemma ReadsLastWrittenIff(p: Primitives, values: set<string>, s: State, log: map<string, string>, key: Key, k: string, r: Random)
    requires p.Lawful() && (forall v :: v in values ==> Storable(v))
    requires OneKey(p, values, s, log, key) && !IsInternal(k) && k in s.local
    ensures var readable := !IsSensitive(k) || !IsEncrypted(s.local[k]) || (HasKey(p, s) && (s.sodium || !IsV2(s.local[k][1..])));
            && k in log
            && (Get(p, s, k, r) == Some(log[k]) <==> readable)
            && (Get(p, s, k, r) == None <==> !readable)
  {
    var own := if Unkeyed(p, s) then r.key else key;
    if Unkeyed(p, s) {
      UnkeyedFitsAny(p, values, s, log, key, own);
      EmptyTextIsTagged(p);
    }
    assert Matches(p, World({own}, values), k, Item(s.local, k), Item(log, k));
    EnsureKeyChoices(p, s, r.key);
    if IsSensitive(k) && IsEncrypted(s.local[k]) {
      OpensUnderOwn(p, own, s.local[k], log[k]);
      assert HasKey(p, s) ==> EnsureKey(p, s, r.key).key == Some(own);
    }
  }
}
