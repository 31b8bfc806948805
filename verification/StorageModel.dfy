/** What each operation of `secure-storage.js` does to the browser's storage and to the cached key. */
module StorageModel {
  import opened Wrappers
  import opened StorageFormats

  const DEVICE_KEY := "e2e_device_key"
  const ENCRYPTED_PASSWORD := "e2e_encrypted_password"
  const FRIEND_CODE := "e2e_friend_code"
  const LOCAL_KEY := "e2e_local_storage_key"
  const OLD_PASSWORD := "e2e_password"

  const SENSITIVE_PREFIXES := ["token", "user", "e2e_", "admin_", "fkc_", "profile_key_cache"]

  predicate IsBootstrapKey(k: string) {
    k == DEVICE_KEY || k == ENCRYPTED_PASSWORD || k == FRIEND_CODE || k == LOCAL_KEY
  }

  predicate IsSensitive(k: string) {
    !IsBootstrapKey(k) && exists i :: 0 <= i < |SENSITIVE_PREFIXES| && SENSITIVE_PREFIXES[i] <= k
  }

  predicate IsEncrypted(raw: string) {
    raw != "" && raw[0] == MAGIC
  }

  /**
    `local` is localStorage, `session` the key cached in sessionStorage, `key`
    the key in memory. The other fields say whether libsodium and E2ECrypto
    can be used on this page, whether a derivation is still wanted, and
    whether `_secInit` has run.
  */
  datatype State = State(
    local: map<string, string>,
    session: Option<string>,
    key: Option<Key>,
    sodium: bool,
    crypto: bool,
    pending: bool,
    initDone: bool)

  /** The random bytes one event draws: a key, and a nonce for each entry it writes. */
  datatype Random = Random(key: Key, nonce: string -> Nonce)

  function Item(local: map<string, string>, k: string): Option<string> {
    if k in local then Some(local[k]) else None
  }

  predicate IsTruthy(o: Option<string>) {
    o.Some? && o.value != ""
  }

  /** A stored key counts only when it decodes to 32 bytes. */
  function KeyFrom(p: Primitives, o: Option<string>): Option<Key> {
    if !IsTruthy(o) then None
    else
      match p.atob(o.value)
      case Some(b) => if |b| == 32 then Some(b) else None
      case None => None
  }

  // ----- Choosing a key -----

  predicate HasPasswordBootstrap(local: map<string, string>) {
    IsTruthy(Item(local, ENCRYPTED_PASSWORD)) && IsTruthy(Item(local, DEVICE_KEY))
  }

  /** The key at hand, without deriving one. */
  function CurrentKey(p: Primitives, s: State): Option<Key> {
    if s.key.Some? then s.key
    else if KeyFrom(p, s.session).Some? then KeyFrom(p, s.session)
    else KeyFrom(p, Item(s.local, LOCAL_KEY))
  }

  /** What the blob and the device key give, once the code to decrypt the blob is there. */
  function DeriveFrom(p: Primitives, blob: string, device: string): Option<Key> {
    if !HasWrappedForm(blob) then None
    else
      match p.unwrap(blob, device)
      case Some(pw) => if pw == "" then None else Some(p.stretch(pw))
      case None => None
  }

  /** An old version may have encrypted the blob with the storage key. */
  function BlobToParse(p: Primitives, s: State, blob: string): string {
    var cur := CurrentKey(p, s);
    if IsEncrypted(blob) && cur.Some? && DecryptLegacy(p, cur, blob[1..]).Text?
    then DecryptLegacy(p, cur, blob[1..]).value
    else blob
  }

  function TryDerive(p: Primitives, s: State): Option<Key> {
    if HasPasswordBootstrap(s.local) && s.crypto && s.sodium
    then DeriveFrom(p, BlobToParse(p, s, s.local[ENCRYPTED_PASSWORD]), s.local[DEVICE_KEY])
    else None
  }

  /** The state after `_ensureKey`; the key it returns is the key then in memory. */
  ghost function EnsureKey(p: Primitives, s: State, minted: Key): State {
    if s.key.Some? then s.(session := Some(p.btoa(s.key.value)))
    else if HasPasswordBootstrap(s.local) then
      match TryDerive(p, s)
      case Some(d) => WithDerivedKey(p, s, d).(pending := false)
      case None => s.(key := CurrentKey(p, s), pending := true)
    else if KeyFrom(p, s.session).Some? then s.(key := KeyFrom(p, s.session))
    else
      match KeyFrom(p, Item(s.local, LOCAL_KEY))
      case Some(k) => s.(key := Some(k), session := Some(p.btoa(k)))
      case None => s.(key := Some(minted), session := Some(p.btoa(minted)), local := s.local[LOCAL_KEY := p.btoa(minted)])
  }

  /** Caching a derived key drops the random one. */
  function WithDerivedKey(p: Primitives, s: State, d: Key): State {
    s.(key := Some(d), session := Some(p.btoa(d)), local := s.local - {LOCAL_KEY})
  }

  ghost function Redrive(p: Primitives, s: State): State {
    match TryDerive(p, s)
    case Some(d) => WithDerivedKey(p, s, d).(pending := false)
    case None => s
  }

  // ----- Reading and writing one entry -----

  ghost function AfterGet(p: Primitives, s: State, k: string, r: Random): State {
    if IsSensitive(k) && k in s.local && IsEncrypted(s.local[k]) then EnsureKey(p, s, r.key) else s
  }

  /** What `getItem` returns; a value that cannot even be decoded comes back as it is stored. */
  ghost function Get(p: Primitives, s: State, k: string, r: Random): Option<string> {
    if IsSensitive(k) && k in s.local && IsEncrypted(s.local[k]) then
      match DecryptInner(p, s.sodium, EnsureKey(p, s, r.key).key, s.local[k][1..])
      case Text(v) => Some(v)
      case Unreadable => None
      case Threw => Item(s.local, k)
    else Item(s.local, k)
  }

  /** The stored form of a value; plain when encryption throws. */
  function Stored(p: Primitives, sodium: bool, key: Option<Key>, nonce: Nonce, v: string): string {
    match EncryptInner(p, sodium, key, nonce, v)
    case Some(inner) => [MAGIC] + inner
    case None => v
  }

  /** The key is asked for again on encrypting, which refreshes the session. */
  ghost function Set(p: Primitives, s: State, k: string, v: string, r: Random): State {
    if IsSensitive(k) then
      var s1 := EnsureKey(p, EnsureKey(p, s, r.key), r.key);
      s1.(local := s1.local[k := Stored(p, s1.sodium, s1.key, r.nonce(k), v)])
    else s.(local := s.local[k := v])
  }

  // ----- Starting -----

  /** A bootstrap value that an old version encrypted is decrypted, or dropped. */
  ghost function Repair(p: Primitives, s: State, k: string, r: Random): State {
    if k in s.local && IsEncrypted(s.local[k]) then
      var s1 := EnsureKey(p, s, r.key);
      match DecryptInner(p, s1.sodium, s1.key, s.local[k][1..])
      case Text(v) => s1.(local := s1.local[k := v])
      case _ => s1.(local := s1.local - {k})
    else s
  }

  predicate IsPlainSecret(local: map<string, string>, k: string) {
    k in local && IsSensitive(k) && !IsEncrypted(local[k])
  }

  function Migrated(p: Primitives, s: State, r: Random): map<string, string> {
    map k | k in s.local ::
      if IsPlainSecret(s.local, k) then Stored(p, s.sodium, s.key, r.nonce(k), s.local[k]) else s.local[k]
  }

  ghost function Migrate(p: Primitives, s: State, r: Random): State {
    if exists k :: IsPlainSecret(s.local, k) then
      var s1 := EnsureKey(p, s, r.key);
      s1.(local := Migrated(p, s1, r))
    else s
  }

  ghost function SecInit(p: Primitives, s: State, r: Random): State {
    if s.initDone then s
    else
      var s1 := EnsureKey(p, s, r.key);
      var s2 := Repair(p, Repair(p, Repair(p, s1, DEVICE_KEY, r), ENCRYPTED_PASSWORD, r), FRIEND_CODE, r);
      Migrate(p, s2, r).(initDone := true)
  }

  // ----- Upgrading legacy values -----

  datatype Upgrade = Upgrade(local: map<string, string>, changed: bool, threw: bool)

  /** The upgraded entry; None when its base64 text is invalid, which throws. */
  function UpgradeEntry(p: Primitives, raw: string, key: Key, nonce: Nonce): Option<string> {
    if !IsEncrypted(raw) || IsV2(raw[1..]) then Some(raw)
    else
      match DecryptLegacy(p, Some(key), raw[1..])
      case Text(v) => Some([MAGIC] + SealV2(p, key, nonce, v))
      case Unreadable => Some(raw)
      case Threw => None
  }

  /** `order` is the order in which the browser lists the entries; an invalid entry ends the pass. */
  function UpgradeFrom(p: Primitives, local: map<string, string>, order: seq<string>, key: Key, r: Random): Upgrade
    decreases |order|
  {
    if order == [] then Upgrade(local, false, false)
    else if order[0] !in local || !IsSensitive(order[0]) then UpgradeFrom(p, local, order[1..], key, r)
    else
      var k := order[0];
      match UpgradeEntry(p, local[k], key, r.nonce(k))
      case None => Upgrade(local, false, true)
      case Some(raw) =>
        var rest := UpgradeFrom(p, local[k := raw], order[1..], key, r);
        rest.(changed := raw != local[k] || rest.changed)
  }

  function UpgradeToAead(p: Primitives, s: State, order: seq<string>, r: Random): Upgrade {
    var key := CurrentKey(p, s);
    if !s.sodium || key.None? then Upgrade(s.local, false, false) else UpgradeFrom(p, s.local, order, key.value, r)
  }

  /** What runs once libsodium is ready. */
  ghost function SodiumCallback(p: Primitives, s: State, order: seq<string>, r: Random): State {
    var s1 := if s.pending then Redrive(p, s) else s;
    var up := UpgradeToAead(p, s1, order, r);
    var s2 := s1.(local := up.local);
    if up.threw then s2 else SecInit(p, s2, r)
  }

  // ----- Changing the key -----

  /** An entry's text under the old key; None when it has none. */
  function OldText(p: Primitives, sodium: bool, key: Option<Key>, raw: string): Option<string> {
    if !IsEncrypted(raw) then Some(raw)
    else if key.None? then None
    else
      match DecryptInner(p, sodium, key, raw[1..])
      case Text(v) => Some(v)
      case _ => None
  }

  function Rekeyed(p: Primitives, s: State, previous: Option<Key>, d: Key, r: Random): map<string, string> {
    map k | k in s.local && k != LOCAL_KEY ::
      if IsSensitive(k) && OldText(p, s.sodium, previous, s.local[k]).Some?
      then [MAGIC] + SealV2(p, d, r.nonce(k), OldText(p, s.sodium, previous, s.local[k]).value)
      else s.local[k]
  }

  /** Nothing but the cached keys is touched unless the new key can be derived. */
  ghost function ReKey(p: Primitives, s: State, r: Random): State {
    var previous := CurrentKey(p, s);
    var s1 := s.(key := None, session := None);
    match TryDerive(p, s1)
    case None => s1
    case Some(d) => s1.(key := Some(d), session := Some(p.btoa(d)), local := Rekeyed(p, s1, previous, d, r))
  }

  ghost predicate ReKeySucceeds(p: Primitives, s: State) {
    TryDerive(p, s.(key := None, session := None)).Some?
  }

  // ----- Logging in -----

  function WithDeviceKey(s: State, device: string): map<string, string> {
    if s.crypto && s.sodium && !IsTruthy(Item(s.local, DEVICE_KEY)) then s.local[DEVICE_KEY := device] else s.local
  }

  /** The password blob a login writes; None when encrypting the password throws. */
  function NewBlob(p: Primitives, s: State, pw: string, device: string, r: Random): Option<string> {
    if s.crypto && s.sodium
    then p.wrap(r.nonce(ENCRYPTED_PASSWORD), pw, Item(WithDeviceKey(s, device), DEVICE_KEY).GetOr(""))
    else None
  }

  function WithBlob(p: Primitives, s: State, pw: string, device: string, r: Random): State {
    var local := WithDeviceKey(s, device);
    match NewBlob(p, s, pw, device, r)
    case Some(e) => s.(local := local[ENCRYPTED_PASSWORD := e] - {OLD_PASSWORD})
    case None => s.(local := local)
  }

  /** `pw` is the password as it is wrapped, `device` a new device key should one be needed. */
  ghost function Login(p: Primitives, s: State, pw: string, device: string, r: Random): State {
    ReKey(p, WithBlob(p, s, pw, device, r), r)
  }

  // ----- Changing the password -----

  /**
    The texts are collected, the blob is replaced and the caches are dropped;
    then each text is to be sealed under the key in memory, which by now is
    null, so every sealing throws and no entry is written.
  */
  ghost function RekeyToPassword(p: Primitives, s: State, pw: string, r: Random): State {
    var blob := ChangedBlob(p, s, pw, r);
    if blob.None? then s
    else
      var s1 := s.(local := s.local[ENCRYPTED_PASSWORD := blob.value], key := None, session := None);
      if TryDerive(p, s1).None? then s1 else s1.(local := s1.local - {LOCAL_KEY})
  }

  /** None when there is no device key, or encrypting the new password throws. */
  function ChangedBlob(p: Primitives, s: State, pw: string, r: Random): Option<string> {
    if s.crypto && s.sodium && IsTruthy(Item(s.local, DEVICE_KEY))
    then p.wrap(r.nonce(ENCRYPTED_PASSWORD), pw, s.local[DEVICE_KEY])
    else None
  }

  // ----- Wiping -----

  /** The caches of file keys and names, which a wipe is to spare. */
  predicate IsMediaCache(k: string) {
    "fkc_" <= k || k == "profile_key_cache" || k == "user_display_name_cache"
  }

  /** What no wipe removes; the loop over the names passes over an empty one. */
  predicate IsPreference(k: string) {
    k == "" || k == "session_duration_seconds" || k == "reauth_duration_seconds"
  }

  function ClearAll(s: State): State {
    s.(local := map k | k in s.local && !IsSensitive(k) :: s.local[k], session := None, key := None)
  }

  predicate IsHiddenMedia(local: map<string, string>, k: string) {
    k in local && IsMediaCache(k) && IsEncrypted(local[k])
  }

  ghost function AfterMediaReads(p: Primitives, s: State, r: Random): State {
    if exists k :: IsHiddenMedia(s.local, k) then EnsureKey(p, s, r.key) else s
  }

  /** The readable texts of the media caches. */
  function MediaTexts(p: Primitives, s: State): map<string, string> {
    map k | k in s.local && IsMediaCache(k) && OldText(p, s.sodium, s.key, s.local[k]).Some? ::
      OldText(p, s.sodium, s.key, s.local[k]).value
  }

  /** The texts are written again, and nothing else stays but the preferences. */
  function Spared(p: Primitives, s: State, texts: map<string, string>, r: Random): map<string, string> {
    map k | k in s.local.Keys + texts.Keys && (k in texts || IsPreference(k)) ::
      if k in texts then Stored(p, s.sodium, s.key, r.nonce(k), texts[k]) else s.local[k]
  }

  /**
    The login page: the media caches are read, everything secret is cleared, the caches are
    written again, under the key then found, and all other entries are removed,
    the key material among them. Only the key in memory is left.
  */
  ghost function Wipe(p: Primitives, s: State, r: Random): State {
    var s1 := AfterMediaReads(p, s, r);
    var texts := MediaTexts(p, s1);
    var s2 := if texts == map[] then ClearAll(s1) else EnsureKey(p, ClearAll(s1), r.key);
    s2.(session := None, local := Spared(p, s2, texts, r))
  }

  /** All data is cleared on request; the key stays in memory until the page is left. */
  function ClearData(s: State): State {
    s.(local := map k | k in s.local && IsPreference(k) :: s.local[k], session := None)
  }

  // ----- Runs -----

  datatype Action =
    | Load(keepSession: bool, sodium: bool, crypto: bool)
    | SodiumLoads
    | CryptoLoads
    | SodiumIsReady
    | Redrives
    | Upgrades
    | Rekeys
    | Gets(key: string)
    | Sets(key: string, value: string)
    | Removes(key: string)
    | Logins(password: string, device: string)
    | StoresPassword(password: string, device: string)   // the blob is replaced, and nothing else is done
    | ChangesPassword(password: string)
    | Wipes
    | ClearsData

  datatype Event = Event(action: Action, random: Random, order: seq<string>)

  /** A new page finds what is in storage, and in the session if the tab is the same. */
  function NewPage(s: State, keep: bool, sodium: bool, crypto: bool): State {
    State(s.local, if keep then s.session else None, None, sodium, crypto, false, false)
  }

  ghost function Step(p: Primitives, s: State, e: Event): State {
    var r := e.random;
    match e.action
    case Load(keep, sodium, crypto) => SecInit(p, NewPage(s, keep, sodium, crypto), r)
    case SodiumLoads => s.(sodium := true)
    case CryptoLoads => s.(crypto := true)
    case SodiumIsReady => SodiumCallback(p, s, e.order, r)
    case Redrives => Redrive(p, s)
    case Upgrades => s.(local := UpgradeToAead(p, s, e.order, r).local)
    case Rekeys => ReKey(p, s, r)
    case Gets(k) => AfterGet(p, s, k, r)
    case Sets(k, v) => Set(p, s, k, v, r)
    case Removes(k) => s.(local := s.local - {k})
    case Logins(pw, device) => Login(p, s, pw, device, r)
    case StoresPassword(pw, device) => WithBlob(p, s, pw, device, r)
    case ChangesPassword(pw) => RekeyToPassword(p, s, pw, r)
    case Wipes => Wipe(p, s, r)
    case ClearsData => ClearData(s)
  }

  function Left(log: map<string, string>, local: map<string, string>): map<string, string> {
    map k | k in log && k in local :: log[k]
  }

  /** The value last written to each entry, and not removed since. */
  ghost function Written(p: Primitives, s: State, log: map<string, string>, e: Event): map<string, string> {
    match e.action
    case Sets(k, v) => log[k := v]
    case Removes(k) => log - {k}
    case Logins(pw, device) => if NewBlob(p, s, pw, device, e.random).Some? then log - {OLD_PASSWORD} else log
    case StoresPassword(pw, device) => if NewBlob(p, s, pw, device, e.random).Some? then log - {OLD_PASSWORD} else log
    case Wipes => Left(log, Wipe(p, s, e.random).local)
    case ClearsData => Left(log, ClearData(s).local)
    case _ => log
  }

  datatype History = History(state: State, log: map<string, string>)

  ghost function Run(p: Primitives, h: History, events: seq<Event>): History
    decreases |events|
  {
    if events == [] then h
    else
      var last := |events| - 1;
      var before := Run(p, h, events[..last]);
      History(Step(p, before.state, events[last]), Written(p, before.state, before.log, events[last]))
  }
}
