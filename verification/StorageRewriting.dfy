/** The two operations that rewrite every entry, on any storage whatever it holds. */
module StorageRewriting {
  import opened Wrappers
  import opened StorageFormats
  import opened StorageModel

  /** The text an entry shows under a key, if any. */
  function View(p: Primitives, key: Key, raw: string): Option<string> {
    OldText(p, true, Some(key), raw)
  }

  lemma StripKeepsIff(v: string)
    ensures StripMark(v) == v <==> !StartsWithMark(v)
  {
    assert StartsWithMark(v) ==> |StripMark(v)| < |v|;
  }

  lemma SealedShows(p: Primitives, key: Key, nonce: Nonce, v: string)
    requires p.Lawful()
    ensures View(p, key, [MAGIC] + SealV2(p, key, nonce, v)) == Some(StripMark(v))
    ensures IsV2(([MAGIC] + SealV2(p, key, nonce, v))[1..])
  {
    V2Opens(p, key, key, nonce, v);
    FormatsAreDisjoint(p, key, nonce, v);
    assert ([MAGIC] + SealV2(p, key, nonce, v))[1..] == SealV2(p, key, nonce, v);
  }

  /**
    Changing the key. A failure leaves localStorage as it was. A success keeps
    the text of every secret that the old key could read, unless it starts with
    a byte order mark, leaves the unreadable ones and all else as they were,
    and drops the random key.
  */
  lemma ReKeyPreserves(p: Primitives, s: State, r: Random, k: string)
    requires p.Lawful()
    ensures !ReKeySucceeds(p, s) ==> ReKey(p, s, r) == s.(key := None, session := None)
    ensures ReKeySucceeds(p, s) ==>
              var s' := ReKey(p, s, r);
              && s'.key.Some? && s'.session == Some(p.btoa(s'.key.value)) && LOCAL_KEY !in s'.local
              && s'.local.Keys == s.local.Keys - {LOCAL_KEY}
              && (k in s'.local ==>
                    var text := OldText(p, true, CurrentKey(p, s), s.local[k]);
                    if IsSensitive(k) && text.Some?
                    then View(p, s'.key.value, s'.local[k]) == text <==> !StartsWithMark(text.value)
                    else s'.local[k] == s.local[k])
  {
    if ReKeySucceeds(p, s) {
      var s' := ReKey(p, s, r);
      var text := if k in s.local then OldText(p, true, CurrentKey(p, s), s.local[k]) else None;
      if text.Some? {
        SealedShows(p, s'.key.value, r.nonce(k), text.value);
        StripKeepsIff(text.value);
      }
    }
  }

  // ----- The upgrade -----

  /** An entry the upgrade has nothing more to do with. */
  ghost predicate Settled(p: Primitives, raw: string, key: Key) {
    forall n: Nonce :: UpgradeEntry(p, raw, key, n) == Some(raw)
  }

  lemma UpgradeEntrySettles(p: Primitives, raw: string, key: Key, nonce: Nonce)
    requires p.Lawful() && UpgradeEntry(p, raw, key, nonce).Some?
    ensures Settled(p, UpgradeEntry(p, raw, key, nonce).value, key)
  {
    if IsEncrypted(raw) && !IsV2(raw[1..]) && DecryptLegacy(p, Some(key), raw[1..]).Text? {
      SealedShows(p, key, nonce, DecryptLegacy(p, Some(key), raw[1..]).value);
    }
  }

  /** Only secrets change, and settled ones do not. */
  lemma {:induction false} UpgradeTouches(p: Primitives, local: map<string, string>, order: seq<string>, key: Key, r: Random, k: string)
    requires k in local ==> !IsSensitive(k) || Settled(p, local[k], key)
    ensures Item(UpgradeFrom(p, local, order, key, r).local, k) == Item(local, k)
    decreases |order|
  {
    if order != [] {
      var j := order[0];
      if j in local && IsSensitive(j) && UpgradeEntry(p, local[j], key, r.nonce(j)).Some? {
        UpgradeTouches(p, local[j := UpgradeEntry(p, local[j], key, r.nonce(j)).value], order[1..], key, r, k);
      } else {
        UpgradeTouches(p, local, order[1..], key, r, k);
      }
    }
  }

  ghost predicate Upgraded(p: Primitives, raw: string, raw': string, key: Key) {
    var text := View(p, key, raw);
    if raw' == raw then true
    else text.Some? && IsEncrypted(raw') && IsV2(raw'[1..]) && View(p, key, raw') == Some(StripMark(text.value))
  }

  lemma UpgradeEntryUpgrades(p: Primitives, raw: string, key: Key, nonce: Nonce)
    requires p.Lawful() && UpgradeEntry(p, raw, key, nonce).Some?
    ensures Upgraded(p, raw, UpgradeEntry(p, raw, key, nonce).value, key)
  {
    if IsEncrypted(raw) && !IsV2(raw[1..]) && DecryptLegacy(p, Some(key), raw[1..]).Text? {
      SealedShows(p, key, nonce, DecryptLegacy(p, Some(key), raw[1..]).value);
    }
  }

  /** Each secret is as it was, or sealed anew with the text it showed under the key. */
  lemma {:induction false} UpgradeUpgrades(p: Primitives, local: map<string, string>, order: seq<string>, key: Key, r: Random, k: string)
    requires p.Lawful() && k in local
    ensures var up := UpgradeFrom(p, local, order, key, r);
            && k in up.local && Upgraded(p, local[k], up.local[k], key)
            && (!up.threw && k in order && IsSensitive(k) ==> Settled(p, up.local[k], key))
    decreases |order|
  {
    if order != [] {
      var j := order[0];
      if j !in local || !IsSensitive(j) {
        UpgradeUpgrades(p, local, order[1..], key, r, k);
      } else if UpgradeEntry(p, local[j], key, r.nonce(j)).Some? {
        var raw := UpgradeEntry(p, local[j], key, r.nonce(j)).value;
        var next := local[j := raw];
        UpgradeEntrySettles(p, local[j], key, r.nonce(j));
        UpgradeUpgrades(p, next, order[1..], key, r, k);
        if j == k {
          UpgradeEntryUpgrades(p, local[k], key, r.nonce(k));
          UpgradeTouches(p, next, order[1..], key, r, k);
          assert Item(UpgradeFrom(p, next, order[1..], key, r).local, k) == Item(next, k);
        }
      }
    }
  }

  /**
    Upgrading the legacy values. Under the current key every secret shows the
    same text before and after, except that a rewritten one loses a leading byte
    order mark; a secret the key cannot read is left byte for byte; nothing
    else is touched; and unless an invalid entry stopped the pass, no readable
    legacy value is left.
  */
  lemma UpgradePreservesView(p: Primitives, local: map<string, string>, order: seq<string>, key: Key, r: Random, k: string)
    requires p.Lawful() && k in local
    ensures var up := UpgradeFrom(p, local, order, key, r);
            && k in up.local
            && (View(p, key, local[k]) == None || !IsSensitive(k) ==> up.local[k] == local[k])
            && (View(p, key, up.local[k]) == View(p, key, local[k]) <==>
                  up.local[k] == local[k] || !StartsWithMark(View(p, key, local[k]).value))
            && (!up.threw && k in order && IsSensitive(k) && IsEncrypted(local[k]) && View(p, key, local[k]).Some? ==>
                  IsEncrypted(up.local[k]) && IsV2(up.local[k][1..]))
  {
    var up := UpgradeFrom(p, local, order, key, r);
    UpgradeUpgrades(p, local, order, key, r, k);
    if !IsSensitive(k) {
      UpgradeTouches(p, local, order, key, r, k);
      assert Item(up.local, k) == Item(local, k);
    }
    if up.local[k] != local[k] {
      StripKeepsIff(View(p, key, local[k]).value);
    } else if !up.threw && k in order && IsSensitive(k) && IsEncrypted(local[k]) && View(p, key, local[k]).Some? {
      SettledReadableIsV2(p, local[k], key);
    }
  }

  lemma SettledReadableIsV2(p: Primitives, raw: string, key: Key)
    requires p.Lawful() && Settled(p, raw, key) && IsEncrypted(raw) && View(p, key, raw).Some?
    ensures IsV2(raw[1..])
  {
    var n: Nonce := seq(24, i => 0 as bv8);
    assert UpgradeEntry(p, raw, key, n) == Some(raw);
    if DecryptLegacy(p, Some(key), raw[1..]).Text? {
      SealedShows(p, key, n, DecryptLegacy(p, Some(key), raw[1..]).value);
    }
  }

  /** A second pass changes nothing, whatever the first one met. */
  lemma {:induction false} SecondUpgradeIsIdle(p: Primitives, local: map<string, string>, order: seq<string>, key: Key, r: Random, r': Random)
    requires p.Lawful()
    ensures var up := UpgradeFrom(p, local, order, key, r);
            UpgradeFrom(p, up.local, order, key, r') == Upgrade(up.local, false, up.threw)
    decreases |order|
  {
    if order != [] {
      var k, rest := order[0], order[1..];
      var up := UpgradeFrom(p, local, order, key, r);
      if k !in local || !IsSensitive(k) {
        UpgradeTouches(p, local, rest, key, r, k);
        assert Item(up.local, k) == Item(local, k);
        SecondUpgradeIsIdle(p, local, rest, key, r, r');
      } else if UpgradeEntry(p, local[k], key, r.nonce(k)).Some? {
        var next := local[k := UpgradeEntry(p, local[k], key, r.nonce(k)).value];
        UpgradeEntrySettles(p, local[k], key, r.nonce(k));
        UpgradeTouches(p, next, rest, key, r, k);
        assert Item(up.local, k) == Item(next, k);
        assert up.local[k := up.local[k]] == up.local;
        SecondUpgradeIsIdle(p, next, rest, key, r, r');
      } else {
        ThrowsAgain(p, local[k], key, r.nonce(k), r'.nonce(k));
      }
    }
  }

  lemma ThrowsAgain(p: Primitives, raw: string, key: Key, n: Nonce, n': Nonce)
    requires UpgradeEntry(p, raw, key, n).None?
    ensures UpgradeEntry(p, raw, key, n').None?
  {
  }

  /** The upgrade reports a change exactly when there is one. */
  lemma {:induction false} UpgradeReports(p: Primitives, local: map<string, string>, order: seq<string>, key: Key, r: Random)
    requires p.Lawful()
    ensures var up := UpgradeFrom(p, local, order, key, r);
            up.changed <==> up.local != local
    decreases |order|
  {
    if order != [] {
      var k, rest := order[0], order[1..];
      if k !in local || !IsSensitive(k) {
        UpgradeReports(p, local, rest, key, r);
      } else if UpgradeEntry(p, local[k], key, r.nonce(k)).Some? {
        var next := local[k := UpgradeEntry(p, local[k], key, r.nonce(k)).value];
        UpgradeReports(p, next, rest, key, r);
        UpgradeEntrySettles(p, local[k], key, r.nonce(k));
        UpgradeTouches(p, next, rest, key, r, k);
        assert Item(UpgradeFrom(p, next, rest, key, r).local, k) == Item(next, k);
        assert next[k] == local[k] ==> next == local;
      }
    }
  }
}
