/** A run from the empty browser that loses the session token. */
module StorageFailure {
  import opened Wrappers
  import opened StorageFormats
  import opened StorageModel
  import opened StorageSafety
  import opened StorageKeys
  import opened StorageChanges
  import opened StorageExample

  const VALUES := {"7"}

  /** Two passwords that give different keys, and a text that no key shows as another one. */
  ghost predicate Suits(p: Primitives) {
    && p.Lawful()
    && p.stretch("a") != p.stretch("b")
    && (forall n: Nonce, dev: string :: p.wrap(n, "a", dev).Some? && p.wrap(n, "b", dev).Some?)
    && (forall key: Key, tried: Key :: TellsApart(p, "7", key, tried))
  }

  lemma ExampleSuits()
    ensures Suits(Example())
  {
    ExampleIsLawful();
    PasswordsDiffer();
    PasswordsWrap();
    forall key: Key, tried: Key ensures TellsApart(Example(), "7", key, tried) {
      DigitToldApart(key, tried);
    }
  }

  lemma PasswordsDiffer()
    ensures Example().stretch("a") != Example().stretch("b")
  {
    assert Stretch("a")[0] != Stretch("b")[0];
  }

  lemma PasswordsWrap()
    ensures forall n: Nonce, dev: string :: Example().wrap(n, "a", dev).Some? && Example().wrap(n, "b", dev).Some?
  {
    assert Wrap("a").Some? && Wrap("b").Some?;
  }

  lemma DigitToldApart(key: Key, tried: Key)
    ensures TellsApart(Example(), "7", key, tried)
  {
    var p := Example();
    var seen := p.decode(Xor(Xor(p.encode("7"), key), tried));
    if Tag(seen) == Tag("7") {
      assert Tag("7")[15] == '7' && Tag("7")[0] == '0';
      assert |seen| == 1 && Tag(seen)[15] == seen[0];
    }
  }

  /** The keys and texts of such a run are what the safety theorem asks for. */
  lemma TwoPasswordsAreWellChosen(p: Primitives)
    requires Suits(p)
    ensures WellChosen(p, World({p.stretch("a"), p.stretch("b")}, VALUES))
  {
    assert p.stretch("a") in {p.stretch("a"), p.stretch("b")};
  }

  lemma TokenIsSecret()
    ensures IsSensitive("token") && !IsInternal("token") && "token" != OLD_PASSWORD
  {
    assert SENSITIVE_PREFIXES[0] <= "token";
  }

  // ----- Runs, one event at a time -----

  lemma RunMore(p: Primitives, h: History, events: seq<Event>, e: Event)
    ensures var before := Run(p, h, events);
            Run(p, h, events + [e]) == History(Step(p, before.state, e), Written(p, before.state, before.log, e))
  {
    assert (events + [e])[..|events|] == events;
  }

  /** A page load. */
  lemma RunLoad(p: Primitives, h: History, events: seq<Event>, s: State, log: map<string, string>, e: Event, s': State)
    requires Run(p, h, events) == History(s, log) && e.action.Load?
    requires s' == SecInit(p, NewPage(s, e.action.keepSession, e.action.sodium, e.action.crypto), e.random)
    ensures Run(p, h, events + [e]) == History(s', log)
  {
    RunMore(p, h, events, e);
  }

  /** Libsodium becomes available, and its handler runs. */
  lemma RunReady(p: Primitives, h: History, events: seq<Event>, s: State, log: map<string, string>, loads: Event, ready: Event)
    requires Run(p, h, events) == History(s, log) && loads.action == SodiumLoads && ready.action == SodiumIsReady
    ensures Run(p, h, events + [loads] + [ready]) ==
            History(SodiumCallback(p, s.(sodium := true), ready.order, ready.random), log)
  {
    RunMore(p, h, events, loads);
    RunMore(p, h, events + [loads], ready);
  }

  /** A blob is written, with a rekey or without. */
  lemma RunBlob(p: Primitives, h: History, events: seq<Event>, s: State, log: map<string, string>, e: Event, pw: string, device: string, s': State)
    requires Run(p, h, events) == History(s, log) && OLD_PASSWORD !in log
    requires e.action in {Logins(pw, device), StoresPassword(pw, device)}
    requires s' == if e.action.Logins? then Login(p, s, pw, device, e.random) else WithBlob(p, s, pw, device, e.random)
    ensures Run(p, h, events + [e]) == History(s', log)
  {
    RunMore(p, h, events, e);
    assert log - {OLD_PASSWORD} == log;
  }

  lemma RunSet(p: Primitives, h: History, events: seq<Event>, s: State, log: map<string, string>, e: Event, k: string, v: string, s': State)
    requires Run(p, h, events) == History(s, log) && e.action == Sets(k, v) && s' == Set(p, s, k, v, e.random)
    ensures Run(p, h, events + [e]) == History(s', log[k := v])
  {
    RunMore(p, h, events, e);
  }

  // ----- The run -----

  function Empty(): State {
    State(map[], None, None, false, false, false, false)
  }

  /** The first page load draws a random key. */
  lemma FirstLoad(p: Primitives, r: Random)
    requires p.Lawful()
    ensures SecInit(p, State(map[], None, None, true, true, false, false), r) ==
            State(map[LOCAL_KEY := p.btoa(r.key)], Some(p.btoa(r.key)), Some(r.key), true, true, false, true)
  {
    var s := State(map[], None, None, true, true, false, false);
    var s1 := EnsureKey(p, s, r.key);
    assert s1.local == map[LOCAL_KEY := p.btoa(r.key)];
    assert Repair(p, Repair(p, Repair(p, s1, DEVICE_KEY, r), ENCRYPTED_PASSWORD, r), FRIEND_CODE, r) == s1;
    assert !exists k :: IsPlainSecret(s1.local, k);
  }

  function Opening(r: Random): seq<Event> {
    [Event(Load(false, true, true), r, []), Event(Logins("a", "device"), r, []), Event(Sets("token", "7"), r, [])]
  }

  /** The browser after the first load. */
  function Loaded(p: Primitives, r: Random): State {
    State(map[LOCAL_KEY := p.btoa(r.key)], Some(p.btoa(r.key)), Some(r.key), true, true, false, true)
  }

  lemma LoadRuns(p: Primitives, r: Random)
    requires p.Lawful()
    ensures Run(p, History(Empty(), map[]), Opening(r)[..1]) == History(Loaded(p, r), map[])
  {
    FirstLoad(p, r);
    RunLoad(p, History(Empty(), map[]), [], Empty(), map[], Opening(r)[0], Loaded(p, r));
    assert [] + [Opening(r)[0]] == Opening(r)[..1];
  }

  lemma LoginRuns(p: Primitives, r: Random, s2: State)
    requires p.Lawful() && s2 == Login(p, Loaded(p, r), "a", "device", r)
    ensures Run(p, History(Empty(), map[]), Opening(r)[..2]) == History(s2, map[])
  {
    LoadRuns(p, r);
    RunBlob(p, History(Empty(), map[]), Opening(r)[..1], Loaded(p, r), map[], Opening(r)[1], "a", "device", s2);
    assert Opening(r)[..1] + [Opening(r)[1]] == Opening(r)[..2];
  }

  lemma OpeningRuns(p: Primitives, r: Random, s2: State, s3: State)
    requires p.Lawful() && s2 == Login(p, Loaded(p, r), "a", "device", r) && s3 == Set(p, s2, "token", "7", r)
    ensures Run(p, History(Empty(), map[]), Opening(r)) == History(s3, map["token" := "7"])
  {
    LoginRuns(p, r, s2);
    RunSet(p, History(Empty(), map[]), Opening(r)[..2], s2, map[], Opening(r)[2], "token", "7", s3);
    assert Opening(r)[..2] + [Opening(r)[2]] == Opening(r);
  }

  lemma LoggedIn(p: Primitives, r: Random)
    requires Suits(p)
    ensures var s := Login(p, Loaded(p, r), "a", "device", r);
            && OneKey(p, VALUES, s, map[], p.stretch("a"))
            && s.key == Some(p.stretch("a")) && s.sodium && s.crypto
  {
    KeyFromStored(p, r.key);
    assert NewBlob(p, Loaded(p, r), "a", "device", r).Some?;
    LoginWithBlob(p, VALUES, Loaded(p, r), map[], r.key, "a", "device", r);
    LoginLocal(p, Loaded(p, r), "a", "device", r);
    var none: map<string, string> := map[];
    assert none - {OLD_PASSWORD} == none;
  }

  /** A secret written while libsodium and a key are there is a v2 value under that key. */
  lemma WrittenIsV2(p: Primitives, s: State, key: Key, k: string, v: string, r: Random)
    requires p.Lawful() && s.key == Some(key) && s.sodium && IsSensitive(k)
    ensures var s' := Set(p, s, k, v, r);
            && s'.sodium && s'.crypto == s.crypto
            && k in s'.local && IsEncrypted(s'.local[k]) && IsV2(s'.local[k][1..])
  {
    FormatsAreDisjoint(p, key, r.nonce(k), v);
    assert ([MAGIC] + SealV2(p, key, r.nonce(k), v))[1..] == SealV2(p, key, r.nonce(k), v);
  }

  lemma TokenSet(p: Primitives, s: State, r: Random)
    requires Suits(p) && OneKey(p, VALUES, s, map[], p.stretch("a")) && s.key == Some(p.stretch("a")) && s.sodium && s.crypto
    ensures var s' := Set(p, s, "token", "7", r);
            && OneKey(p, VALUES, s', map["token" := "7"], p.stretch("a"))
            && s'.sodium && s'.crypto
            && "token" in s'.local && IsEncrypted(s'.local["token"]) && IsV2(s'.local["token"][1..])
  {
    TokenIsSecret();
    WrittenIsV2(p, s, p.stretch("a"), "token", "7", r);
    AloneIsWellChosen(p, VALUES, p.stretch("a"));
    SetKeeps(p, World({p.stretch("a")}, VALUES), s, map[], "token", "7", r);
    SetLeads(p, s, p.stretch("a"), "token", "7", r);
  }

  /** The user is asked for a changed password, which is stored; the tab is closed, and opened again. */
  function Reopened(events: seq<Event>, r: Random, order: seq<string>): seq<Event> {
    events + [Event(StoresPassword("b", "device"), r, [])]
    + [Event(Load(false, false, true), r, order)] + [Event(SodiumLoads, r, order)] + [Event(SodiumIsReady, r, order)]
  }

  lemma ReopeningRuns(p: Primitives, h: History, events: seq<Event>, s: State, log: map<string, string>, r: Random, order: seq<string>)
    requires Run(p, h, events) == History(s, log) && OLD_PASSWORD !in log
    ensures Run(p, h, Reopened(events, r, order)) == History(Started(p, WithBlob(p, s, "b", "device", r), false, false, order, r), log)
  {
    var store, t := Event(StoresPassword("b", "device"), r, []), WithBlob(p, s, "b", "device", r);
    RunBlob(p, h, events, s, log, store, "b", "device", t);
    RunStart(p, h, events + [store], t, log,
             Event(Load(false, false, true), r, order), Event(SodiumLoads, r, order), Event(SodiumIsReady, r, order));
  }

  lemma RunStart(p: Primitives, h: History, events: seq<Event>, s: State, log: map<string, string>, load: Event, loads: Event, ready: Event)
    requires Run(p, h, events) == History(s, log) && load.action == Load(false, false, true)
    requires loads.action == SodiumLoads && ready.action == SodiumIsReady && ready.random == load.random
    ensures Run(p, h, events + [load] + [loads] + [ready]) == History(Started(p, s, false, false, ready.order, load.random), log)
  {
    var u := SecInit(p, State(s.local, None, None, false, true, false, false), load.random);
    RunLoad(p, h, events, s, log, load, u);
    RunReady(p, h, events + [load], u, log, loads, ready);
  }

  lemma LostUnderAnotherKey(p: Primitives, values: set<string>, s: State, log: map<string, string>, key: Key,
                            pw: string, device: string, r: Random, order: seq<string>, k: string, r': Random)
    requires p.Lawful() && (forall v :: v in values ==> Storable(v))
    requires OneKey(p, values, s, log, key) && MayLogin(pw, device) && NewBlob(p, s, pw, device, r).Some?
    requires k in s.local && IsSensitive(k) && k != OLD_PASSWORD && IsEncrypted(s.local[k]) && IsV2(s.local[k][1..])
    requires k in log && TellsApart(p, log[k], key, p.stretch(pw)) && p.stretch(pw) != key
    ensures Get(p, Started(p, WithBlob(p, s, pw, device, r), false, false, order, r), k, r') == None
  {
    StoredPasswordKeepsEntryIff(p, values, s, log, key, pw, device, r, false, false, order, r, k, r');
  }

  lemma LostWhenReopened(p: Primitives, h: History, events: seq<Event>, s: State, log: map<string, string>,
                         r: Random, order: seq<string>, r': Random)
    requires Suits(p) && Run(p, h, events) == History(s, log) && log == map["token" := "7"]
    requires OneKey(p, VALUES, s, log, p.stretch("a")) && s.sodium && s.crypto
    requires "token" in s.local && IsEncrypted(s.local["token"]) && IsV2(s.local["token"][1..])
    ensures var end := Run(p, h, Reopened(events, r, order));
            end.log == log && Get(p, end.state, "token", r') == None
  {
    TokenIsSecret();
    assert NewBlob(p, s, "b", "device", r).Some?;
    LostUnderAnotherKey(p, VALUES, s, log, p.stretch("a"), "b", "device", r, order, "token", r');
    ReopeningRuns(p, h, events, s, log, r, order);
  }

  /**
    The failure in full: a first load, a login, a token written; a changed
    password is stored; the page is loaded again. From then on the token reads
    as null.
  */
  lemma TokenIsLost(p: Primitives, r: Random, order: seq<string>, r': Random)
    requires Suits(p)
    ensures var end := Run(p, History(Empty(), map[]), Reopened(Opening(r), r, order));
            end.log == map["token" := "7"] && Get(p, end.state, "token", r') == None
  {
    var s2 := Login(p, Loaded(p, r), "a", "device", r);
    var s3 := Set(p, s2, "token", "7", r);
    LoggedIn(p, r);
    TokenSet(p, s2, r);
    OpeningRuns(p, r, s2, s3);
    LostWhenReopened(p, History(Empty(), map[]), Opening(r), s3, map["token" := "7"], r, order, r');
  }

  /**
    A login that finds the caches empty would lose the token as well: the other
    side of `LoginKeepsEntryIff`, which page order rules out.
  */
  lemma KeylessLoginLosesToken(p: Primitives, s: State, r: Random, r': Random)
    requires Suits(p) && OneKey(p, VALUES, s, map["token" := "7"], p.stretch("a")) && s.sodium && s.crypto
    requires ENCRYPTED_PASSWORD in s.local
    requires "token" in s.local && IsEncrypted(s.local["token"]) && IsV2(s.local["token"][1..])
    ensures Get(p, Login(p, s.(key := None, session := None), "b", "device", r), "token", r') == None
  {
    var keyless := s.(key := None, session := None);
    TokenIsSecret();
    assert NewBlob(p, keyless, "b", "device", r).Some?;
    LoginKeepsEntryIff(p, VALUES, keyless, map["token" := "7"], p.stretch("a"), "b", "device", r, "token", r');
  }
}
