/** Liveness of every run in the order of the pages: nothing that was written is orphaned. */
module StorageLiveness {
  import opened Wrappers
  import opened StorageFormats
  import opened StorageModel
  import opened StorageSafety
  import opened StorageKeys
  import opened StorageChanges
  import opened StorageWipes

  /** Something in storage is encrypted, and nothing in storage leads to its key. */
  ghost predicate Stranded(p: Primitives, s: State) {
    ENCRYPTED_PASSWORD !in s.local && LOCAL_KEY !in s.local && !NothingSealed(p, s.local)
  }

  /**
    What the pages write. A blob that no rekey follows must wrap the password
    that already rules. What a wipe has spared must be taken over by a login
    before its key is dropped.
  */
  ghost predicate Allowed(p: Primitives, values: set<string>, s: State, e: Event) {
    match e.action
    case Load(keep, _, _) => Stranded(p, s) ==> keep && KeyFrom(p, s.session).Some?
    case Rekeys => !Stranded(p, s)
    case Sets(k, v) => !IsInternal(k) && v in values
    case Removes(k) => !IsInternal(k)
    case Logins(pw, device) => MayLogin(pw, device) && (Stranded(p, s) ==> NewBlob(p, s, pw, device, e.random).Some?)
    case StoresPassword(pw, device) =>
      MayLogin(pw, device) && (NewBlob(p, s, pw, device, e.random).Some? ==> Derived(p, s.local) == Some(p.stretch(pw)))
    case ChangesPassword(pw) =>
      pw != "" && (ChangedBlob(p, s, pw, e.random).Some? ==> Derived(p, s.local) == Some(p.stretch(pw)))
    case _ => true
  }

  ghost predicate AllowedAt(p: Primitives, values: set<string>, h: History, events: seq<Event>, i: nat)
    requires i < |events|
  {
    Allowed(p, values, Run(p, h, events[..i]).state, events[i])
  }

  /** The password was changed on the page that is still open. */
  predicate ChangedHere(events: seq<Event>)
    decreases |events|
  {
    if events == [] then false
    else
      var last := |events| - 1;
      match events[last].action
      case Load(_, _, _) => false
      case ChangesPassword(_) => true
      case _ => ChangedHere(events[..last])
  }

  predicate EndsLoading(events: seq<Event>) {
    events != [] && events[|events| - 1].action.SodiumLoads?
  }

  /**
    The order of events on the repository's pages: E2ECrypto is there before
    the storage layer, the ready handler runs as soon as libsodium is there,
    and passwords are changed on another page than the one that logs in.
  */
  predicate InPageOrder(before: seq<Event>, a: Action) {
    && (a.Load? ==> a.crypto)
    && (EndsLoading(before) ==> a.SodiumIsReady?)
    && (a.Logins? ==> !ChangedHere(before))
  }

  predicate PageOrdered(events: seq<Event>) {
    forall i :: 0 <= i < |events| ==> InPageOrder(events[..i], events[i].action)
  }

  /** While there is a blob, its key is at hand once libsodium is there, and wanted until then. */
  predicate Armed(p: Primitives, s: State) {
    ENCRYPTED_PASSWORD in s.local ==> s.crypto && if s.sodium then CurrentKey(p, s).Some? else s.pending
  }

  /** Libsodium has just become available. */
  predicate Loading(p: Primitives, s: State) {
    ENCRYPTED_PASSWORD in s.local ==> s.crypto && (s.pending || CurrentKey(p, s).Some?)
  }

  predicate Fit(p: Primitives, events: seq<Event>, s: State) {
    (ChangedHere(events) && s.sodium && s.crypto) || if EndsLoading(events) then s.sodium && Loading(p, s) else Armed(p, s)
  }

  lemma RepairFlags(p: Primitives, s: State, k: string, r: Random)
    ensures Repair(p, s, k, r).sodium == s.sodium && Repair(p, s, k, r).crypto == s.crypto
  {
    EnsureKeyFlags(p, s, r.key);
  }

  lemma MigrateFlags(p: Primitives, s: State, r: Random)
    ensures Migrate(p, s, r).sodium == s.sodium && Migrate(p, s, r).crypto == s.crypto
  {
    EnsureKeyFlags(p, s, r.key);
  }

  lemma SecInitFlags(p: Primitives, s: State, r: Random)
    ensures SecInit(p, s, r).sodium == s.sodium && SecInit(p, s, r).crypto == s.crypto
  {
    var s1 := EnsureKey(p, s, r.key);
    var s2 := Repair(p, s1, DEVICE_KEY, r);
    var s3 := Repair(p, s2, ENCRYPTED_PASSWORD, r);
    EnsureKeyFlags(p, s, r.key);
    RepairFlags(p, s1, DEVICE_KEY, r);
    RepairFlags(p, s2, ENCRYPTED_PASSWORD, r);
    RepairFlags(p, s3, FRIEND_CODE, r);
    MigrateFlags(p, Repair(p, s3, FRIEND_CODE, r), r);
  }

  /** What a page has loaded stays loaded. */
  lemma FlagsStay(p: Primitives, s: State, e: Event)
    requires !e.action.Load?
    ensures (s.sodium ==> Step(p, s, e).sodium) && (s.crypto ==> Step(p, s, e).crypto)
  {
    var r := e.random;
    match e.action
    case Wipes => WipeFlags(p, s, r);
    case SodiumIsReady =>
      var s1 := if s.pending then Redrive(p, s) else s;
      SecInitFlags(p, s1.(local := UpgradeToAead(p, s1, e.order, r).local), r);
    case Gets(k) => EnsureKeyFlags(p, s, r.key);
    case Sets(k, v) =>
      EnsureKeyFlags(p, s, r.key);
      EnsureKeyFlags(p, EnsureKey(p, s, r.key), r.key);
    case _ =>
  }

  /** A blob in storage can be derived from. */
  ghost predicate Derivable(p: Primitives, local: map<string, string>) {
    BootstrapIsSound(local) && (ENCRYPTED_PASSWORD in local ==> Derived(p, local).Some?)
  }

  /** Secrets do not matter here. */
  lemma ArmedStays(p: Primitives, s: State, local: map<string, string>)
    requires SameInternal(s.local, local)
    ensures Derivable(p, s.local) ==> Derivable(p, local)
    ensures Armed(p, s) == Armed(p, s.(local := local)) && CurrentKey(p, s) == CurrentKey(p, s.(local := local))
  {
    assert Item(s.local, DEVICE_KEY) == Item(local, DEVICE_KEY);
    assert Item(s.local, ENCRYPTED_PASSWORD) == Item(local, ENCRYPTED_PASSWORD);
    assert Item(s.local, LOCAL_KEY) == Item(local, LOCAL_KEY);
  }

  /** Being asked for the key, the code derives it or wants it. */
  lemma EnsureKeyArms(p: Primitives, s: State, minted: Key)
    requires p.Lawful() && Derivable(p, s.local)
    requires ENCRYPTED_PASSWORD in s.local ==> s.crypto && (s.sodium || s.pending || s.key.None?)
    ensures var s' := EnsureKey(p, s, minted);
            && Armed(p, s') && Derivable(p, s'.local)
            && s'.sodium == s.sodium && s'.crypto == s.crypto
  {
    EnsureKeyChoices(p, s, minted);
    TryDeriveIs(p, s);
    var s' := EnsureKey(p, s, minted);
    LocalKeyOnly(p, s.local, s'.local);
    assert Item(s'.local, ENCRYPTED_PASSWORD) == Item(s.local, ENCRYPTED_PASSWORD);
  }

  lemma SecInitArms(p: Primitives, w: World, s: State, log: map<string, string>, r: Random)
    requires p.Lawful() && (forall v :: v in w.values ==> Storable(v)) && Entries(p, w, s.local, log) && Derivable(p, s.local)
    requires if s.initDone then Armed(p, s) else ENCRYPTED_PASSWORD in s.local ==> s.crypto && (s.sodium || s.pending || s.key.None?)
    ensures Armed(p, SecInit(p, s, r))
  {
    if !s.initDone {
      var s1 := EnsureKey(p, s, r.key);
      EnsureKeyArms(p, s, r.key);
      EnsureKeyChoices(p, s, r.key);
      assert SameBut(s.local, s1.local, LOCAL_KEY);
      EntriesSameBut(p, w, s.local, s1.local, log);
      NothingToRepair(p, w, s1, log, r);
      MigrateArms(p, s1, r);
    }
  }

  lemma MigrateArms(p: Primitives, s: State, r: Random)
    requires p.Lawful() && Derivable(p, s.local) && Armed(p, s)
    ensures Armed(p, Migrate(p, s, r))
  {
    if exists k :: IsPlainSecret(s.local, k) {
      var s1 := EnsureKey(p, s, r.key);
      EnsureKeyArms(p, s, r.key);
      ArmedStays(p, s1, Migrated(p, s1, r));
    }
  }

  lemma SetArms(p: Primitives, s: State, k: string, v: string, r: Random)
    requires p.Lawful() && Derivable(p, s.local) && Armed(p, s) && !IsInternal(k)
    ensures Armed(p, Set(p, s, k, v, r))
  {
    if IsSensitive(k) {
      var s0 := EnsureKey(p, s, r.key);
      EnsureKeyArms(p, s, r.key);
      EnsureKeyArms(p, s0, r.key);
      ArmedStays(p, EnsureKey(p, s0, r.key), Set(p, s, k, v, r).local);
    } else {
      ArmedStays(p, s, Set(p, s, k, v, r).local);
    }
  }

  lemma RedriveArms(p: Primitives, s: State)
    requires p.Lawful() && Derivable(p, s.local) && (if s.sodium && s.pending then Loading(p, s) else Armed(p, s))
    ensures Armed(p, Redrive(p, s)) && Derivable(p, Redrive(p, s).local)
  {
    TryDeriveIs(p, s);
    var s' := Redrive(p, s);
    assert SameBut(s.local, s'.local, LOCAL_KEY);
    LocalKeyOnly(p, s.local, s'.local);
    assert Item(s'.local, ENCRYPTED_PASSWORD) == Item(s.local, ENCRYPTED_PASSWORD);
  }

  lemma ReKeyArms(p: Primitives, s: State, r: Random)
    requires p.Lawful() && Derivable(p, s.local) && Armed(p, s)
    ensures Armed(p, ReKey(p, s, r))
  {
    TryDeriveIs(p, s.(key := None, session := None));
    assert ReKeySucceeds(p, s) ==> HasPasswordBootstrap(s.local) && s.sodium && s.crypto;
  }

  lemma SodiumCallbackArms(p: Primitives, w: World, s: State, log: map<string, string>, order: seq<string>, r: Random)
    requires p.Lawful() && WellChosen(p, w) && Inv(p, w, s, log) && Derivable(p, s.local)
    requires (s.sodium && Loading(p, s)) || Armed(p, s)
    ensures Armed(p, SodiumCallback(p, s, order, r))
  {
    var s1 := if s.pending then Redrive(p, s) else s;
    RedriveKeeps(p, w, s, log);
    if s.pending {
      RedriveArms(p, s);
    }
    UpgradeKeeps(p, w, s1, log, order, r);
    var local := UpgradeToAead(p, s1, order, r).local;
    ArmedStays(p, s1, local);
    SecInitArms(p, w, s1.(local := local), log, r);
  }

  /** A blob is written only with libsodium and E2ECrypto there; a rekey then caches its key. */
  lemma BlobArms(p: Primitives, s: State, pw: string, device: string, r: Random)
    requires p.Lawful() && Derivable(p, s.local) && Armed(p, s) && MayLogin(pw, device)
    ensures Armed(p, Login(p, s, pw, device, r))
    ensures (NewBlob(p, s, pw, device, r).Some? ==> ENCRYPTED_PASSWORD in s.local) ==> Armed(p, WithBlob(p, s, pw, device, r))
  {
    var t := WithBlob(p, s, pw, device, r);
    if NewBlob(p, s, pw, device, r).Some? {
      LoginLocal(p, s, pw, device, r);
      WithBlobSound(p, s, pw, device, r);
    } else {
      NoBlobDerives(p, s, pw, device, r);
      assert Item(t.local, ENCRYPTED_PASSWORD) == Item(s.local, ENCRYPTED_PASSWORD);
      assert Item(t.local, LOCAL_KEY) == Item(s.local, LOCAL_KEY);
      ReKeyArms(p, t, r);
    }
  }

  lemma LoadArms(p: Primitives, w: World, s: State, log: map<string, string>, keep: bool, sodium: bool, r: Random)
    requires p.Lawful() && (forall v :: v in w.values ==> Storable(v)) && Entries(p, w, s.local, log) && Derivable(p, s.local)
    ensures Armed(p, SecInit(p, NewPage(s, keep, sodium, true), r))
  {
    SecInitArms(p, w, NewPage(s, keep, sodium, true), log, r);
  }

  /** In page order, every step leaves the page fit for the next. */
  lemma StepFits(p: Primitives, values: set<string>, s: State, log: map<string, string>, key: Key, events: seq<Event>, e: Event)
    requires p.Lawful() && (forall v :: v in values ==> Storable(v)) && OneKey(p, values, s, log, key)
    requires Fit(p, events, s) && InPageOrder(events, e.action) && Allowed(p, values, s, e)
    ensures Fit(p, events + [e], Step(p, s, e))
  {
    assert (events + [e])[..|events|] == events;
    var w := World({key}, values);
    AloneIsWellChosen(p, values, key);
    if e.action.Load? {
      LoadArms(p, w, s, log, e.action.keepSession, e.action.sodium, e.random);
    } else if ChangedHere(events) && s.sodium && s.crypto {
      FlagsStay(p, s, e);
    } else if e.action.SodiumIsReady? {
      SodiumCallbackArms(p, w, s, log, e.order, e.random);
    } else if e.action.ChangesPassword? {
      assert ChangedBlob(p, s, e.action.password, e.random).Some? ==> s.sodium && s.crypto;
    } else {
      ArmedStepFits(p, values, s, log, key, e);
    }
  }

  lemma ArmedStepFits(p: Primitives, values: set<string>, s: State, log: map<string, string>, key: Key, e: Event)
    requires p.Lawful() && (forall v :: v in values ==> Storable(v)) && OneKey(p, values, s, log, key)
    requires Armed(p, s) && Allowed(p, values, s, e)
    requires !e.action.Load? && !e.action.SodiumIsReady? && !e.action.ChangesPassword?
    ensures var s' := Step(p, s, e);
            if e.action.SodiumLoads? then s'.sodium && Loading(p, s') else Armed(p, s')
  {
    var r := e.random;
    AloneIsWellChosen(p, values, key);
    match e.action
    case SodiumLoads =>
    case CryptoLoads =>
    case Redrives => RedriveArms(p, s);
    case Upgrades =>
      UpgradeKeeps(p, World({key}, values), s, log, e.order, r);
      ArmedStays(p, s, UpgradeToAead(p, s, e.order, r).local);
    case Rekeys => ReKeyArms(p, s, r);
    case Gets(k) => EnsureKeyArms(p, s, r.key);
    case Sets(k, v) => SetArms(p, s, k, v, r);
    case Removes(k) => ArmedStays(p, s, s.local - {k});
    case Logins(pw, device) => BlobArms(p, s, pw, device, r);
    case StoresPassword(pw, device) => BlobArms(p, s, pw, device, r);
    case Wipes => WipeDropsKeys(p, s, r);
    case ClearsData => ClearDataKeeps(p, World({key}, values), s, log);
  }

  /** In page order, every login finds the key it needs. */
  lemma LoginsAreTimely(p: Primitives, values: set<string>, s: State, log: map<string, string>, key: Key,
                        pw: string, device: string, r: Random)
    requires OneKey(p, values, s, log, key) && Armed(p, s) && NewBlob(p, s, pw, device, r).Some?
    ensures LoginIsTimely(p, s, pw)
  {
  }

  lemma LoginHasOneKey(p: Primitives, values: set<string>, s: State, log: map<string, string>, key: Key,
                       pw: string, device: string, r: Random) returns (next: Key)
    requires p.Lawful() && (forall v :: v in values ==> Storable(v)) && OneKey(p, values, s, log, key) && Armed(p, s)
    requires MayLogin(pw, device) && (Stranded(p, s) ==> NewBlob(p, s, pw, device, r).Some?)
    ensures var log' := if NewBlob(p, s, pw, device, r).Some? then log - {OLD_PASSWORD} else log;
            OneKey(p, values, Login(p, s, pw, device, r), log', next)
  {
    if NewBlob(p, s, pw, device, r).Some? {
      LoginsAreTimely(p, values, s, log, key, pw, device, r);
      LoginWithBlob(p, values, s, log, key, pw, device, r);
      next := p.stretch(pw);
    } else {
      LoginWithoutBlob(p, values, s, log, key, pw, device, r);
      next := key;
    }
  }

  lemma StepHasOneKey(p: Primitives, values: set<string>, s: State, log: map<string, string>, key: Key, e: Event)
      returns (next: Key)
    requires p.Lawful() && (forall v :: v in values ==> Storable(v))
    requires OneKey(p, values, s, log, key) && Allowed(p, values, s, e) && (e.action.Logins? ==> Armed(p, s))
    ensures OneKey(p, values, Step(p, s, e), Written(p, s, log, e), next)
  {
    if ReplacesKey(e.action) {
      next := ReplacingHasOneKey(p, values, s, log, key, e);
    } else {
      next := KeepingHasOneKey(p, values, s, log, key, e);
    }
  }

  lemma KeepingHasOneKey(p: Primitives, values: set<string>, s: State, log: map<string, string>, key: Key, e: Event)
      returns (next: Key)
    requires p.Lawful() && (forall v :: v in values ==> Storable(v))
    requires OneKey(p, values, s, log, key) && Allowed(p, values, s, e) && !ReplacesKey(e.action)
    ensures OneKey(p, values, Step(p, s, e), Written(p, s, log, e), next)
  {
    match e.action
    case Load(keep, sodium, crypto) =>
      next := LoadHasOneKey(p, values, s, log, key, NewPage(s, keep, sodium, crypto), e.random);
    case Rekeys => next := RekeyHasOneKey(p, values, s, log, key, e.random);
    case _ => next := OtherStepHasOneKey(p, values, s, log, key, e);
  }

  lemma ReplacingHasOneKey(p: Primitives, values: set<string>, s: State, log: map<string, string>, key: Key, e: Event)
      returns (next: Key)
    requires p.Lawful() && (forall v :: v in values ==> Storable(v)) && ReplacesKey(e.action)
    requires OneKey(p, values, s, log, key) && Allowed(p, values, s, e) && (e.action.Logins? ==> Armed(p, s))
    ensures OneKey(p, values, Step(p, s, e), Written(p, s, log, e), next)
  {
    var r := e.random;
    match e.action
    case Logins(pw, device) => next := LoginHasOneKey(p, values, s, log, key, pw, device, r);
    case StoresPassword(pw, device) =>
      SameBlobKeepsKey(p, values, s, log, key, pw, device, r);
      next := key;
    case ChangesPassword(pw) =>
      SamePasswordChangeKeepsKey(p, values, s, log, key, pw, r);
      next := key;
    case Wipes => next := WipeHasOneKey(p, values, s, log, key, r);
    case ClearsData =>
      ClearDataKeeps(p, World({key}, values), s, log);
      next := key;
  }

  lemma OtherStepHasOneKey(p: Primitives, values: set<string>, s: State, log: map<string, string>, key: Key, e: Event)
      returns (next: Key)
    requires p.Lawful() && (forall v :: v in values ==> Storable(v)) && OneKey(p, values, s, log, key) && Allowed(p, values, s, e)
    requires !ReplacesKey(e.action) && !e.action.Load? && !e.action.Rekeys?
    ensures OneKey(p, values, Step(p, s, e), Written(p, s, log, e), next)
  {
    next := if Unkeyed(p, s) then e.random.key else key;
    if Unkeyed(p, s) {
      UnkeyedFitsAny(p, values, s, log, key, next);
    }
    MintsIffUnkeyed(p, values, s, log, next);
    StepKeepsKey(p, values, s, log, next, e);
  }

  /** A new page draws a key only if nothing in storage depends on one. */
  lemma LoadHasOneKey(p: Primitives, values: set<string>, s: State, log: map<string, string>, key: Key, s0: State, r: Random)
      returns (next: Key)
    requires p.Lawful() && (forall v :: v in values ==> Storable(v)) && OneKey(p, values, s, log, key)
    requires s0.local == s.local && s0.session in {None, s.session} && s0.key == None
    requires Stranded(p, s) ==> KeyFrom(p, s0.session).Some?
    ensures OneKey(p, values, SecInit(p, s0, r), log, next)
  {
    next := key;
    if Unkeyed(p, s0) {
      next := r.key;
      UnkeyedFitsAny(p, values, s0, log, key, next);
    }
    SecInitOneKey(p, values, s0, log, next, r);
  }

  lemma RekeyHasOneKey(p: Primitives, values: set<string>, s: State, log: map<string, string>, key: Key, r: Random)
      returns (next: Key)
    requires p.Lawful() && (forall v :: v in values ==> Storable(v)) && OneKey(p, values, s, log, key) && !Stranded(p, s)
    ensures OneKey(p, values, ReKey(p, s, r), log, next)
  {
    next := key;
    AloneIsWellChosen(p, values, key);
    ReKeyKeeps(p, World({key}, values), s, log, r);
    if LeadsTo(p, s.local, key) {
      ReKeyLeads(p, s, key, r);
    }
  }

  lemma OrderedBefore(p: Primitives, values: set<string>, h: History, events: seq<Event>, n: nat)
    requires n < |events| && PageOrdered(events) && forall i :: 0 <= i < |events| ==> AllowedAt(p, values, h, events, i)
    ensures PageOrdered(events[..n]) && forall i :: 0 <= i < n ==> AllowedAt(p, values, h, events[..n], i)
    ensures InPageOrder(events[..n], events[n].action) && Allowed(p, values, Run(p, h, events[..n]).state, events[n])
  {
    assert AllowedAt(p, values, h, events, n);
    forall i | 0 <= i < n ensures AllowedAt(p, values, h, events[..n], i) && InPageOrder(events[..n][..i], events[..n][i].action) {
      assert AllowedAt(p, values, h, events, i) && InPageOrder(events[..i], events[i].action);
      assert events[..n][..i] == events[..i];
    }
  }

  lemma {:induction false} RunHasOneKey(p: Primitives, values: set<string>, h: History, events: seq<Event>, key: Key)
      returns (last: Key)
    requires p.Lawful() && (forall v :: v in values ==> Storable(v))
    requires OneKey(p, values, h.state, h.log, key) && Armed(p, h.state)
    requires PageOrdered(events) && forall i :: 0 <= i < |events| ==> AllowedAt(p, values, h, events, i)
    ensures OneKey(p, values, Run(p, h, events).state, Run(p, h, events).log, last)
    ensures Fit(p, events, Run(p, h, events).state)
    decreases |events|
  {
    last := key;
    if events != [] {
      var n := |events| - 1;
      var before := Run(p, h, events[..n]);
      OrderedBefore(p, values, h, events, n);
      last := RunHasOneKey(p, values, h, events[..n], key);
      StepFits(p, values, before.state, before.log, last, events[..n], events[n]);
      assert events == events[..n] + [events[n]];
      last := StepHasOneKey(p, values, before.state, before.log, last, events[n]);
    }
  }

  /**
    Liveness. Starting from an empty browser, over every run in page order,
    with logins under whatever passwords, every entry reads as the value last
    written to it whenever libsodium is there. Two things are asked of the
    events: a blob that no rekey follows must keep the password, and what a wipe
    has spared must see a login before its key is dropped. What happens otherwise
    say `StoredPasswordKeepsEntryIff`, `PasswordChangeKeepsEntryIff` and
    `ReloadAfterWipeKeepsIff`.
  */
  lemma NothingIsOrphaned(p: Primitives, values: set<string>, s: State, events: seq<Event>, k: string, r: Random)
    requires p.Lawful() && (forall v :: v in values ==> Storable(v))
    requires s.local == map[] && s.session == None && s.key == None
    requires PageOrdered(events) && forall i :: 0 <= i < |events| ==> AllowedAt(p, values, History(s, map[]), events, i)
    requires !IsInternal(k)
    ensures var end := Run(p, History(s, map[]), events);
            end.state.sodium ==> Get(p, end.state, k, r) == Item(end.log, k)
  {
    var key := EmptyHasOneKey(p, values, s);
    key := RunHasOneKey(p, values, History(s, map[]), events, key);
    var end := Run(p, History(s, map[]), events);
    if end.state.sodium {
      ReadsWhatWasWritten(p, values, end.state, end.log, key, k, r);
    }
  }

  lemma EmptyHasOneKey(p: Primitives, values: set<string>, s: State) returns (any: Key)
    requires s.local == map[] && s.session == None && s.key == None
    ensures OneKey(p, values, s, map[], any)
  {
    any := seq(32, i => 0 as bv8);
  }

  lemma ReadsWhatWasWritten(p: Primitives, values: set<string>, s: State, log: map<string, string>, key: Key, k: string, r: Random)
    requires p.Lawful() && (forall v :: v in values ==> Storable(v))
    requires OneKey(p, values, s, log, key) && !IsInternal(k) && s.sodium && HasKey(p, s)
    ensures Get(p, s, k, r) == Item(log, k)
  {
    assert Matches(p, World({key}, values), k, Item(s.local, k), Item(log, k));
    if k in s.local {
      ReadsLastWrittenIff(p, values, s, log, key, k, r);
    }
  }
}
