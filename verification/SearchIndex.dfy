/**
  The blind search index: the tokens stored with a message, the tokens of a
  query, and why they agree with plain substring search. Words arrive already
  lower-cased and split; `tok(k, w)` stands for the keyed hash of a word.
*/
module SearchIndex {

  const MAX_SUBS := 120
  const MAX_INDEX := 400
  const MAX_QUERY := 8

  /**
    The lookups use plain objects, which answer to these two names before
    anything is stored in them. No other inherited name is a lower-case word.
  */
  predicate Inherited(w: string) {
    w == "constructor" || w == "__proto__"
  }

  predicate NoRepeats<T(==)>(s: seq<T>) {
    forall i, j :: 0 <= i < |s| && 0 <= j < |s| && s[i] == s[j] ==> i == j
  }

  predicate Slice(sub: string, w: string, start: nat, len: nat) {
    start + len <= |w| && w[start..start + len] == sub
  }

  ghost predicate Substring(sub: string, w: string) {
    exists start, len :: Slice(sub, w, start, len)
  }

  // ----- Substrings of one word -----

  /** How many substrings of two or more letters a word of `n` letters has, counted by place. */
  function Places(n: nat): nat {
    if n == 0 then 0 else n - 1 + Places(n - 1)
  }

  lemma {:induction false} PlacesIncrease(m: nat, n: nat)
    requires m <= n
    ensures Places(m) <= Places(n)
    decreases n
  {
    if m < n {
      PlacesIncrease(m, n - 1);
    }
  }

  /** Sixteen letters is the longest word whose substrings all fit under the cap. */
  lemma SixteenLettersFit(n: nat)
    ensures Places(n) <= MAX_SUBS <==> n <= 16
  {
    assert Places(4) == 6 && Places(8) == 28 && Places(12) == 66;
    assert Places(16) == MAX_SUBS && Places(17) > MAX_SUBS;
    if n <= 16 {
      PlacesIncrease(n, 16);
    } else {
      PlacesIncrease(17, n);
    }
  }

  predicate Known(w: string, s: nat, l: nat, seen: set<string>) {
    s + l <= |w| ==> w[s..s + l] in seen || Inherited(w[s..s + l])
  }

  /** Every substring of two or more letters is known that starts before `start`, or at `start` with less than `len` letters. */
  ghost predicate Covered(w: string, start: nat, len: nat, seen: set<string>) {
    forall s: nat, l: nat {:trigger Known(w, s, l, seen)} :: 2 <= l && (s < start || (s == start && l < len)) ==> Known(w, s, l, seen)
  }

  lemma CoverOne(w: string, start: nat, len: nat, seen: set<string>, sub: string)
    requires Covered(w, start, len, seen) && Slice(sub, w, start, len)
    ensures Covered(w, start, len + 1, seen + {sub})
    ensures sub in seen || Inherited(sub) ==> Covered(w, start, len + 1, seen)
  {
    forall s: nat, l: nat {:trigger Known(w, s, l, seen + {sub})} | 2 <= l && (s < start || (s == start && l < len + 1))
      ensures Known(w, s, l, seen + {sub})
    {
      if s < start || l < len {
        assert Known(w, s, l, seen);
      }
    }
  }

  lemma CoverNextStart(w: string, start: nat, len: nat, seen: set<string>)
    requires Covered(w, start, len, seen) && start + len > |w|
    ensures Covered(w, start + 1, 2, seen)
  {
  }

  lemma CoveredMeansAll(w: string, start: nat, len: nat, seen: set<string>)
    requires Covered(w, start, len, seen) && (start + 1 >= |w| || (start + 2 >= |w| && len >= 3))
    requires start < |w| ==> start + len > |w|
    ensures forall sub :: Substring(sub, w) && |sub| >= 2 ==> sub in seen || Inherited(sub)
  {
    forall sub | Substring(sub, w) && |sub| >= 2
      ensures sub in seen || Inherited(sub)
    {
      var s, l :| Slice(sub, w, s, l);
      assert Known(w, s, l, seen);
    }
  }

  ghost predicate AreNewSubs(w: string, seen: set<string>, subs: seq<string>) {
    && NoRepeats(subs)
    && forall sub :: sub in subs ==> sub !in seen && !Inherited(sub) && |sub| >= 2 && Substring(sub, w)
  }

  /** `subs` are substrings of `w` that `seen0` did not hold, and `seen` holds them too. */
  ghost predicate Collected(w: string, seen0: set<string>, seen: set<string>, subs: seq<string>) {
    AreNewSubs(w, seen0, subs) && seen == seen0 + set sub | sub in subs
  }

  lemma CollectOne(w: string, seen0: set<string>, seen: set<string>, subs: seq<string>, start: nat, len: nat)
    requires Collected(w, seen0, seen, subs) && 2 <= len && start + len <= |w|
    ensures var sub := w[start..start + len];
            !(sub in seen || Inherited(sub)) ==> Collected(w, seen0, seen + {sub}, subs + [sub])
  {
    var sub := w[start..start + len];
    assert Slice(sub, w, start, len);
  }

  /** `sub` stands at a place before length `len` at `start`, in order of start and then length. */
  ghost predicate StandsBefore(w: string, start: nat, len: nat, sub: string) {
    exists s: nat, l: nat :: Slice(sub, w, s, l) && (s < start || (s == start && l < len))
  }

  ghost predicate AllBefore(w: string, start: nat, len: nat, subs: seq<string>) {
    forall sub :: sub in subs ==> StandsBefore(w, start, len, sub)
  }

  lemma AllBeforeLater(w: string, start: nat, len: nat, start': nat, len': nat, subs: seq<string>)
    requires AllBefore(w, start, len, subs) && (start < start' || (start == start' && len <= len'))
    ensures AllBefore(w, start', len', subs)
  {
    forall sub | sub in subs ensures StandsBefore(w, start', len', sub) {
      assert StandsBefore(w, start, len, sub);
    }
  }

  lemma OneMoreBefore(w: string, start: nat, len: nat, subs: seq<string>, sub: string)
    requires AllBefore(w, start, len, subs) && Slice(sub, w, start, len)
    ensures AllBefore(w, start, len + 1, subs + [sub]) && AllBefore(w, start, len + 1, subs)
  {
    AllBeforeLater(w, start, len, start, len + 1, subs);
    assert StandsBefore(w, start, len + 1, sub);
  }

  /** All its prefixes of up to 121 letters are known. */
  ghost predicate PrefixesKnown(w: string, seen: set<string>) {
    forall l :: 2 <= l <= 121 && l <= |w| ==> w[..l] in seen || Inherited(w[..l])
  }

  lemma CoveredPrefixes(w: string, start: nat, len: nat, seen: set<string>)
    requires Covered(w, start, len, seen) && (start > 0 || len >= 122 || len > |w|)
    ensures PrefixesKnown(w, seen)
  {
    forall l | 2 <= l <= 121 && l <= |w| ensures w[..l] in seen || Inherited(w[..l]) {
      assert Known(w, 0, l, seen);
      assert w[0..0 + l] == w[..l];
    }
  }

  /**
    The substrings of one word that are not known yet, in order of start and
    then length, until all are known or 120 were taken. The search ends before
    length `len` at `start`.
  */
  method SubstringsOf(w: string, seen0: set<string>) returns (subs: seq<string>, seen: set<string>, ghost start: nat, ghost len: nat)
    ensures AreNewSubs(w, seen0, subs) && |subs| <= 120
    ensures seen == seen0 + set sub | sub in subs
    ensures Covered(w, start, len, seen) && AllBefore(w, start, len, subs)
    ensures |subs| == 120 || forall sub :: Substring(sub, w) && |sub| >= 2 ==> sub in seen || Inherited(sub)
    ensures |w| <= 16 ==> forall sub :: Substring(sub, w) && |sub| >= 2 ==> sub in seen || Inherited(sub)
    ensures PrefixesKnown(w, seen)
  {
    subs, seen := [], seen0;
    var L := |w|;
    var i := 0;
    SixteenLettersFit(L);
    while i < L
      invariant i <= L
      invariant Collected(w, seen0, seen, subs) && |subs| < MAX_SUBS
      invariant Covered(w, i, 2, seen) && AllBefore(w, i, 2, subs)
      invariant |subs| + Places(L - i) <= Places(L)
      invariant i == 0 ==> subs == []
    {
      start := i;
      subs, seen, len := SubstringsFrom(w, i, seen0, subs, seen);
      if |subs| >= MAX_SUBS {
        if L <= 16 {
          CoveredMeansAll(w, i, len, seen);
        }
        CoveredPrefixes(w, i, len, seen);
        return;
      }
      CoverNextStart(w, i, len, seen);
      AllBeforeLater(w, i, len, i + 1, 2, subs);
      i := i + 1;
    }
    start, len := i, 2;
    CoveredMeansAll(w, i, 2, seen);
    CoveredPrefixes(w, i, 2, seen);
  }

  /** The substrings that start at one place, up to the cap; `len` is the first length not looked at. */
  method SubstringsFrom(w: string, start: nat, ghost seen0: set<string>, subs0: seq<string>, seen1: set<string>)
      returns (subs: seq<string>, seen: set<string>, ghost len: nat)
    requires start < |w| && Collected(w, seen0, seen1, subs0) && |subs0| < MAX_SUBS
    requires Covered(w, start, 2, seen1) && AllBefore(w, start, 2, subs0)
    ensures Collected(w, seen0, seen, subs) && |subs| <= MAX_SUBS
    ensures Covered(w, start, len, seen) && AllBefore(w, start, len, subs)
    ensures 2 <= len && (|subs| < MAX_SUBS ==> len > |w| - start)
    ensures len == 2 || len <= |w| - start + 1
    ensures |subs0| <= |subs| <= |subs0| + len - 2
  {
    subs, seen := subs0, seen1;
    var l := 2;
    while l <= |w| - start && |subs| < MAX_SUBS
      invariant 2 <= l && (l <= |w| - start + 1 || l == 2)
      invariant Collected(w, seen0, seen, subs) && |subs| <= MAX_SUBS
      invariant Covered(w, start, l, seen) && AllBefore(w, start, l, subs)
      invariant |subs0| <= |subs| <= |subs0| + l - 2
    {
      var sub := w[start..start + l];
      assert Slice(sub, w, start, l);
      CoverOne(w, start, l, seen, sub);
      CollectOne(w, seen0, seen, subs, start, l);
      OneMoreBefore(w, start, l, subs, sub);
      if !(sub in seen || Inherited(sub)) {
        seen := seen + {sub};
        subs := subs + [sub];
      }
      l := l + 1;
    }
    len := l;
  }

  // ----- The index of a text -----

  ghost predicate Indexable(words: seq<string>, sub: string) {
    |sub| >= 2 && !Inherited(sub) && exists w :: w in words && !Inherited(w) && Substring(sub, w)
  }

  /**
    `out` indexes the first `processed` of `words`: no token twice, only
    tokens of real substrings, every one of them for the words of up to
    sixteen letters, every prefix of up to 121 letters for all, and word after word until there are 400 tokens.
  */
  ghost predicate IsIndex<K(!new)>(tok: (K, string) -> string, keys: seq<K>, words: seq<string>, processed: nat, out: seq<string>) {
    && processed <= |words|
    && NoRepeats(out)
    && (forall t :: t in out ==> exists k, sub :: k in keys && Indexable(words[..processed], sub) && t == tok(k, sub))
    && (forall w, k, sub ::
          (w in words[..processed] && !Inherited(w) && |w| <= 16 && k in keys
           && |sub| >= 2 && !Inherited(sub) && Substring(sub, w)) ==> tok(k, sub) in out)
    && (forall w, k, l ::
          (w in words[..processed] && !Inherited(w) && k in keys && 2 <= l <= 121 && l <= |w| && !Inherited(w[..l])) ==>
            tok(k, w[..l]) in out)
    && (processed < |words| ==> |out| >= MAX_INDEX || keys == [])
    && |out| <= MAX_INDEX - 1 + MAX_SUBS * |keys|
  }

  /** Adds the tokens of `subs` under every key, skipping those already there. */
  method AddTokens<K(!new)>(tok: (K, string) -> string, keys: seq<K>, subs: seq<string>, out0: seq<string>)
      returns (out: seq<string>)
    requires NoRepeats(out0)
    ensures NoRepeats(out)
    ensures forall t :: t in out0 ==> t in out
    ensures forall t :: t in out ==> t in out0 || exists k, sub :: k in keys && sub in subs && t == tok(k, sub)
    ensures forall k, sub :: k in keys && sub in subs ==> tok(k, sub) in out
    ensures |out| <= |out0| + |subs| * |keys|
  {
    out := out0;
    for s := 0 to |subs|
      invariant NoRepeats(out)
      invariant forall t :: t in out0 ==> t in out
      invariant forall t :: t in out ==> t in out0 || exists k, sub :: k in keys && sub in subs && t == tok(k, sub)
      invariant forall k, sub :: k in keys && sub in subs[..s] ==> tok(k, sub) in out
      invariant |out| <= |out0| + s * |keys|
    {
      ghost var before := out;
      for i := 0 to |keys|
        invariant NoRepeats(out)
        invariant forall t :: t in before ==> t in out
        invariant forall t :: t in out ==> t in out0 || exists k, sub :: k in keys && sub in subs && t == tok(k, sub)
        invariant forall k :: k in keys[..i] ==> tok(k, subs[s]) in out
        invariant |out| <= |before| + i
      {
        var t := tok(keys[i], subs[s]);
        if t !in out {
          out := out + [t];
        }
      }
      assert keys[..|keys|] == keys && subs[..s + 1] == subs[..s] + [subs[s]];
      assert (s + 1) * |keys| == s * |keys| + |keys|;
    }
    assert subs[..|subs|] == subs;
  }

  ghost predicate OnlyIndexed<K(!new)>(tok: (K, string) -> string, keys: seq<K>, words: seq<string>, out: seq<string>) {
    forall t :: t in out ==> exists k, sub :: k in keys && Indexable(words, sub) && t == tok(k, sub)
  }

  /** After one more word, every token is still one of a real substring. */
  lemma StillIndexed<K(!new)>(tok: (K, string) -> string, keys: seq<K>, words: seq<string>, i: nat, before: seq<string>,
                              subs: seq<string>, out: seq<string>)
    requires i < |words| && !Inherited(words[i]) && OnlyIndexed(tok, keys, words[..i], before)
    requires forall sub :: sub in subs ==> !Inherited(sub) && |sub| >= 2 && Substring(sub, words[i])
    requires forall t :: t in out ==> t in before || exists k, sub :: k in keys && sub in subs && t == tok(k, sub)
    ensures OnlyIndexed(tok, keys, words[..i + 1], out)
  {
    assert words[..i + 1] == words[..i] + [words[i]];
    forall t | t in out
      ensures exists k, sub :: k in keys && Indexable(words[..i + 1], sub) && t == tok(k, sub)
    {
      if t in before {
        var k, sub :| k in keys && Indexable(words[..i], sub) && t == tok(k, sub);
        assert Indexable(words[..i + 1], sub);
      } else {
        var k, sub :| k in keys && sub in subs && t == tok(k, sub);
        assert words[i] in words[..i + 1];
        assert Indexable(words[..i + 1], sub);
      }
    }
  }

  /** The state of the search after `i` words: what was seen of them, and the tokens of it. */
  ghost predicate Indexed<K(!new)>(tok: (K, string) -> string, keys: seq<K>, words: seq<string>, i: nat,
                                  seenWords: set<string>, seenSubs: set<string>, out: seq<string>)
    requires i <= |words|
  {
    && NoRepeats(out) && OnlyIndexed(tok, keys, words[..i], out)
    && (forall w :: w in seenWords <==> w in words[..i] && !Inherited(w))
    && AllKnown(seenWords, seenSubs)
    && (forall k, sub :: k in keys && sub in seenSubs ==> tok(k, sub) in out)
    && |out| <= MAX_INDEX - 1 + MAX_SUBS * |keys|
  }

  /** All parts of the short words are known, and the prefixes of the others. */
  ghost predicate AllKnown(seenWords: set<string>, seenSubs: set<string>) {
    && (forall w, sub :: w in seenWords && |w| <= 16 && |sub| >= 2 && Substring(sub, w) ==> sub in seenSubs || Inherited(sub))
    && forall w :: w in seenWords ==> PrefixesKnown(w, seenSubs)
  }

  lemma MoreKnown(seenWords: set<string>, seenSubs: set<string>, more: set<string>, w: string)
    requires AllKnown(seenWords, seenSubs) && seenSubs <= more && PrefixesKnown(w, more)
    requires |w| <= 16 ==> forall sub :: Substring(sub, w) && |sub| >= 2 ==> sub in more || Inherited(sub)
    ensures AllKnown(seenWords + {w}, more)
  {
    forall x | x in seenWords + {w} ensures PrefixesKnown(x, more) {
      assert x in seenWords ==> PrefixesKnown(x, seenSubs);
    }
  }

  lemma SkipWord<K(!new)>(tok: (K, string) -> string, keys: seq<K>, words: seq<string>, i: nat,
                          seenWords: set<string>, seenSubs: set<string>, out: seq<string>)
    requires i < |words| && Indexed(tok, keys, words, i, seenWords, seenSubs, out) && (words[i] in seenWords || Inherited(words[i]))
    ensures Indexed(tok, keys, words, i + 1, seenWords, seenSubs, out)
  {
    assert words[..i + 1] == words[..i] + [words[i]];
    forall t | t in out
      ensures exists k, sub :: k in keys && Indexable(words[..i + 1], sub) && t == tok(k, sub)
    {
      var k, sub :| k in keys && Indexable(words[..i], sub) && t == tok(k, sub);
      assert Indexable(words[..i + 1], sub);
    }
  }

  /** Adds the tokens of one new word. */
  method IndexWord<K(!new)>(tok: (K, string) -> string, keys: seq<K>, words: seq<string>, i: nat, ghost seenWords: set<string>,
                            seenSubs0: set<string>, out0: seq<string>) returns (seenSubs: set<string>, out: seq<string>)
    requires i < |words| && Indexed(tok, keys, words, i, seenWords, seenSubs0, out0) && |out0| < MAX_INDEX
    requires words[i] !in seenWords && !Inherited(words[i])
    ensures Indexed(tok, keys, words, i + 1, seenWords + {words[i]}, seenSubs, out)
  {
    var subs;
    ghost var start, len;
    subs, seenSubs, start, len := SubstringsOf(words[i], seenSubs0);
    out := AddTokens(tok, keys, subs, out0);
    FewerSubs(|subs|, |keys|);
    StillIndexed(tok, keys, words, i, out0, subs, out);
    MoreKnown(seenWords, seenSubs0, seenSubs, words[i]);
    assert words[..i + 1] == words[..i] + [words[i]];
  }

  /** When the search stops, its tokens are an index of the words processed. */
  lemma IndexedIsIndex<K(!new)>(tok: (K, string) -> string, keys: seq<K>, words: seq<string>, i: nat,
                                seenWords: set<string>, seenSubs: set<string>, out: seq<string>)
    requires i <= |words| && Indexed(tok, keys, words, i, seenWords, seenSubs, out) && (i < |words| ==> |out| >= MAX_INDEX)
    ensures IsIndex(tok, keys, words, i, out)
  {
    forall w, k, l | w in words[..i] && !Inherited(w) && k in keys && 2 <= l <= 121 && l <= |w| && !Inherited(w[..l])
      ensures tok(k, w[..l]) in out
    {
      assert PrefixesKnown(w, seenSubs);
    }
  }

  method SearchTokensForText<K(!new)>(tok: (K, string) -> string, keys: seq<K>, words: seq<string>)
      returns (out: seq<string>, ghost processed: nat)
    ensures IsIndex(tok, keys, words, processed, out)
    ensures NoRepeats(out) && |out| <= 399 + 120 * |keys|
    ensures keys != [] && |out| < 400 ==> processed == |words|
    ensures forall w, k, l ::
              (w in words[..processed] && w != "constructor" && w != "__proto__" && k in keys && 2 <= l <= 121 && l <= |w|
               && w[..l] != "constructor" && w[..l] != "__proto__") ==> tok(k, w[..l]) in out
    ensures forall w, k, sub ::
              (w in words[..processed] && w != "constructor" && w != "__proto__" && |w| <= 16 && k in keys
               && |sub| >= 2 && sub != "constructor" && sub != "__proto__" && Substring(sub, w)) ==> tok(k, sub) in out
  {
    out, processed := [], 0;
    if words == [] || keys == [] {
      return;
    }
    var seenWords: set<string>, seenSubs: set<string> := {}, {};
    var i := 0;
    while i < |words| && |out| < MAX_INDEX
      invariant i <= |words|
      invariant Indexed(tok, keys, words, i, seenWords, seenSubs, out)
    {
      var w := words[i];
      if w in seenWords || Inherited(w) {
        SkipWord(tok, keys, words, i, seenWords, seenSubs, out);
      } else {
        seenSubs, out := IndexWord(tok, keys, words, i, seenWords, seenSubs, out);
        seenWords := seenWords + {w};
      }
      i := i + 1;
    }
    IndexedIsIndex(tok, keys, words, i, seenWords, seenSubs, out);
    processed := i;
  }

  lemma FewerSubs(m: nat, n: nat)
    requires m <= MAX_SUBS
    ensures m * n <= MAX_SUBS * n
  {
    assert (MAX_SUBS - m) * n >= 0;
  }

  // ----- The tokens of a query -----

  predicate Acceptable(w: string) {
    2 <= |w| <= 64 && !Inherited(w)
  }

  /**
    `out` holds a token of every word of `picked` under every key, and nothing
    else; an acceptable query word is left out only when it spells a token
    already there, or when the budget of eight tokens is used up.
  */
  ghost predicate IsQuery<K(!new)>(tok: (K, string) -> string, keys: seq<K>, query: seq<string>, processed: nat,
                                  picked: seq<string>, out: seq<string>) {
    && NoRepeats(out)
    && processed <= |query|
    && (forall w :: w in picked ==> w in query[..processed] && Acceptable(w))
    && (forall t :: t in out ==> exists k, w :: k in keys && w in picked && t == tok(k, w))
    && (forall k, w :: k in keys && w in picked ==> tok(k, w) in out || tok(k, w) in picked)
    && (keys != [] ==> forall w :: w in query[..processed] && Acceptable(w) ==> w in picked || w in out)
    && (processed < |query| ==> |out| >= MAX_QUERY || keys == [])
    && |out| <= MAX_QUERY - 1 + |keys|
  }

  method SearchQueryTokens<K(!new)>(tok: (K, string) -> string, keys: seq<K>, query: seq<string>)
      returns (out: seq<string>, ghost processed: nat, ghost picked: seq<string>)
    ensures IsQuery(tok, keys, query, processed, picked, out)
    ensures NoRepeats(out) && |out| <= 7 + |keys|
    ensures keys != [] && |out| < 8 ==> processed == |query|
    ensures forall w :: w in query[..processed] && 2 <= |w| <= 64 && w != "constructor" && w != "__proto__" && keys != [] ==>
              w in picked || w in out
  {
    out, processed, picked := [], 0, [];
    if query == [] || keys == [] {
      return;
    }
    var seen: set<string> := {};
    var i := 0;
    while i < |query| && |out| < MAX_QUERY
      invariant i <= |query|
      invariant NoRepeats(out)
      invariant forall x :: x in seen <==> x in picked || x in out
      invariant forall w :: w in picked ==> w in query[..i] && Acceptable(w)
      invariant forall t :: t in out ==> exists k, w :: k in keys && w in picked && t == tok(k, w)
      invariant forall k, w :: k in keys && w in picked ==> tok(k, w) in out || tok(k, w) in picked
      invariant forall w :: w in query[..i] && Acceptable(w) ==> w in picked || w in out
      invariant |out| <= MAX_QUERY - 1 + |keys|
    {
      var w := query[i];
      assert query[..i + 1] == query[..i] + [w];
      if 2 <= |w| <= 64 && !(w in seen || Inherited(w)) {
        seen := seen + {w};
        ghost var before, pickedBefore := out, picked;
        picked := picked + [w];
        for k := 0 to |keys|
          invariant NoRepeats(out)
          invariant forall x :: x in seen <==> x in picked || x in out
          invariant forall t :: t in before ==> t in out
          invariant forall t :: t in out ==> exists k, w :: k in keys && w in picked && t == tok(k, w)
          invariant forall x :: x in keys[..k] ==> tok(x, w) in seen
          invariant |out| <= |before| + k
        {
          var t := tok(keys[k], w);
          assert keys[..k + 1] == keys[..k] + [keys[k]];
          if t !in seen {
            seen := seen + {t};
            out := out + [t];
            assert w in picked;
          }
        }
        assert keys[..|keys|] == keys;
      }
      i := i + 1;
    }
    processed := i;
  }

  // ----- Main results -----

  ghost predicate Hashed(words: seq<string>, picked: seq<string>, u: string) {
    u in picked || Indexable(words, u)
  }

  /** Different words the two sides hash have different tokens, under whatever keys, and none is itself spelt like a token. */
  ghost predicate NoCollisions<K(!new)>(tok: (K, string) -> string, keys: seq<K>, words: seq<string>, picked: seq<string>) {
    && (forall k, l, u, v ::
          (k in keys && l in keys && Hashed(words, picked, u) && Hashed(words, picked, v) && tok(k, u) == tok(l, v)) ==> u == v)
    && (forall k, w :: k in keys && w in picked ==> tok(k, w) !in picked)
  }

  ghost predicate FoundBySubstring(words: seq<string>, q: string) {
    exists w :: w in words && !Inherited(w) && Substring(q, w)
  }

  /** One query word: its token under any key is in the index iff a text word contains it. */
  lemma WordAgrees<K(!new)>(tok: (K, string) -> string, keys: seq<K>, words: seq<string>, index: seq<string>,
                            query: seq<string>, n: nat, picked: seq<string>, tokens: seq<string>, k: K, q: string)
    requires IsIndex(tok, keys, words, |words|, index) && IsQuery(tok, keys, query, n, picked, tokens)
    requires forall w :: w in words ==> |w| <= 16
    requires NoCollisions(tok, keys, words, picked)
    requires k in keys && q in picked
    ensures tok(k, q) in tokens
    ensures tok(k, q) in index <==> FoundBySubstring(words, q)
  {
    assert words[..|words|] == words;
    if tok(k, q) in index {
      var l, sub :| l in keys && Indexable(words, sub) && tok(k, q) == tok(l, sub);
      assert Hashed(words, picked, q) && Hashed(words, picked, sub);
    }
    if FoundBySubstring(words, q) {
      var w :| w in words && !Inherited(w) && Substring(q, w);
      assert w in words[..|words|];
    }
  }

  /**
    When every word of the text was processed and none is longer than sixteen
    letters, all tokens of the query occur in the index if and only if every
    query word that was tokenised is a substring of some word of the text,
    the two words that plain objects hide aside.
  */
  lemma QueryAgreesWithSubstringSearch<K(!new)>(
      tok: (K, string) -> string, keys: seq<K>, words: seq<string>, index: seq<string>,
      query: seq<string>, n: nat, picked: seq<string>, tokens: seq<string>)
    requires keys != []
    requires IsIndex(tok, keys, words, |words|, index) && IsQuery(tok, keys, query, n, picked, tokens)
    requires forall w :: w in words ==> |w| <= 16
    requires NoCollisions(tok, keys, words, picked)
    ensures (forall t :: t in tokens ==> t in index) <==> (forall q :: q in picked ==> FoundBySubstring(words, q))
  {
    forall k, q | k in keys && q in picked
      ensures tok(k, q) in tokens && (tok(k, q) in index <==> FoundBySubstring(words, q))
    {
      WordAgrees(tok, keys, words, index, query, n, picked, tokens, k, q);
    }
    if forall t :: t in tokens ==> t in index {
      forall q | q in picked
        ensures FoundBySubstring(words, q)
      {
        assert tok(keys[0], q) in tokens;
      }
    }
  }

  /** A text consisting of a hidden word is not indexed at all, so not even its own letters find it. */
  lemma HiddenWordIsNotFound<K(!new)>(tok: (K, string) -> string, keys: seq<K>, w: string, index: seq<string>, n: nat)
    requires IsIndex(tok, keys, [w], n, index) && Inherited(w)
    ensures index == []
  {
    if index != [] {
      assert index[0] in index;
      var k, sub :| k in keys && Indexable([w][..n], sub) && index[0] == tok(k, sub);
    }
  }
}
