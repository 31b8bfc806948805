/** The three ways `secure-storage.js` writes an encrypted value, and how it tells them apart. */
module StorageFormats {
  import opened Wrappers

  type Bytes = seq<bv8>

  type Key = k: Bytes | |k| == 32 witness seq(32, i => 0 as bv8)

  type Nonce = n: Bytes | |n| == 24 witness seq(24, i => 0 as bv8)

  const MAGIC := '~'
  const BYTE_ORDER_MARK := '\U{FEFF}'
  const V2_PREFIX := "v2."
  const TAG_HEX_LEN := 16

  /** The browser and libsodium functions the code calls; None stands for a thrown exception. */
  datatype Primitives = Primitives(
    encode: string -> Bytes,
    decode: Bytes -> string,
    btoa: Bytes -> string,
    atob: string -> Option<Bytes>,
    tag: string -> string,
    seal: (Key, Nonce, Bytes) -> Bytes,
    open: (Key, Bytes, Bytes) -> Option<Bytes>,
    wrap: (Nonce, string, string) -> Option<string>,
    unwrap: (string, string) -> Option<string>,
    stretch: string -> Key)
  {
    ghost predicate Lawful() {
      TextLaws() && Base64Laws() && TagLaw() && SealLaws() && WrapLaw()
    }

    /** TextDecoder drops one leading byte order mark. */
    ghost predicate TextLaws() {
      && (forall s :: decode(encode(s)) == StripMark(s))
      && (forall s :: encode(s) == [] <==> s == "")
    }

    ghost predicate Base64Laws() {
      && (forall b :: atob(btoa(b)) == Some(b) && '.' !in btoa(b))
      && (forall s :: '.' in s ==> atob(s) == None)
      && btoa([]) == ""
    }

    ghost predicate TagLaw() {
      forall s :: |tag(s)| == TAG_HEX_LEN && forall c :: c in tag(s) ==> IsHex(c)
    }

    /** Authenticated encryption: what one key seals, that key opens and no other does. */
    ghost predicate SealLaws() {
      && (forall k: Key, n: Nonce, m: Bytes :: seal(k, n, m) != [] && open(k, n, seal(k, n, m)) == Some(m))
      && (forall k: Key, k': Key, n: Nonce, m: Bytes :: k != k' ==> open(k', n, seal(k, n, m)) == None)
    }

    /** A wrapped password has the form `nonce:ciphertext` and unwraps under the same device key. */
    ghost predicate WrapLaw() {
      forall n: Nonce, pw: string, dev: string :: wrap(n, pw, dev).Some? ==> IsWrapping(wrap(n, pw, dev).value, pw, dev)
    }

    ghost predicate IsWrapping(e: string, pw: string, dev: string) {
      HasWrappedForm(e) && e[0] != MAGIC && unwrap(e, dev) == Some(pw)
    }
  }

  predicate IsHex(c: char) {
    '0' <= c <= '9' || 'a' <= c <= 'f'
  }

  predicate StartsWithMark(s: string) {
    s != "" && s[0] == BYTE_ORDER_MARK
  }

  function StripMark(s: string): string {
    if StartsWithMark(s) then s[1..] else s
  }

  /** Two parts of at least ten characters around a single colon. */
  predicate HasWrappedForm(s: string) {
    exists i :: IsOnlyColon(s, i) && 10 <= i <= |s| - 11
  }

  predicate IsOnlyColon(s: string, i: int) {
    0 <= i < |s| && s[i] == ':' && ':' !in s[..i] && ':' !in s[i + 1..]
  }

  function Xor(b: Bytes, key: Key): (r: Bytes)
    ensures |r| == |b|
  {
    seq(|b|, i requires 0 <= i < |b| => b[i] ^ key[i % 32])
  }

  lemma XorTwice(b: Bytes, key: Key)
    ensures Xor(Xor(b, key), key) == b
  {
    forall i | 0 <= i < |b| ensures Xor(Xor(b, key), key)[i] == b[i] {
      XorBack(b[i], key[i % 32]);
    }
  }

  lemma XorBack(x: bv8, y: bv8)
    ensures (x ^ y) ^ y == x
  {
  }

  /** Text and result together give the key away, byte by byte. */
  lemma XorShowsKey(b: Bytes, key: Key, i: nat)
    requires i < |b|
    ensures Xor(b, key)[i] ^ b[i] == key[i % 32]
  {
    XorBack(key[i % 32], b[i]);
    assert b[i] ^ key[i % 32] == key[i % 32] ^ b[i];
  }

  /** Different keys hide a text of a key's length or more differently. */
  lemma KeysHideDifferently(b: Bytes, key: Key, other: Key)
    requires |b| >= 32
    ensures Xor(b, key) == Xor(b, other) <==> key == other
  {
    if key != other {
      var i :| 0 <= i < 32 && key[i] != other[i];
      XorShowsKey(b, key, i);
      XorShowsKey(b, other, i);
    }
  }

  // ----- Writing -----

  function SealV2(p: Primitives, key: Key, nonce: Nonce, text: string): string {
    V2_PREFIX + p.btoa(nonce + p.seal(key, nonce, p.encode(text)))
  }

  function Tagged(p: Primitives, key: Key, text: string): string {
    p.tag(text) + "." + p.btoa(Xor(p.encode(text), key))
  }

  /** Written by old versions only. */
  function Bare(p: Primitives, key: Key, text: string): string {
    p.btoa(Xor(p.encode(text), key))
  }

  /** Without a key, indexing it throws as soon as there is a byte to encrypt. */
  function XorEncrypt(p: Primitives, key: Option<Key>, text: string): Option<string> {
    match key
    case Some(k) => Some(Tagged(p, k, text))
    case None => if p.encode(text) == [] then Some(p.tag(text) + "." + p.btoa([])) else None
  }

  function EncryptInner(p: Primitives, sodium: bool, key: Option<Key>, nonce: Nonce, text: string): Option<string> {
    if !sodium then XorEncrypt(p, key, text)
    else if key.None? then None
    else Some(SealV2(p, key.value, nonce, text))
  }

  // ----- Reading -----

  datatype Opened = Text(value: string) | Unreadable | Threw

  predicate IsV2(inner: string) {
    V2_PREFIX <= inner
  }

  predicate IsTagged(inner: string) {
    |inner| > TAG_HEX_LEN && inner[TAG_HEX_LEN] == '.'
  }

  function DecryptV2(p: Primitives, sodium: bool, key: Option<Key>, inner: string): Opened
    requires IsV2(inner)
  {
    if !sodium then Unreadable
    else
      match p.atob(inner[|V2_PREFIX|..])
      case None => Unreadable
      case Some(c) =>
        if |c| <= 24 || key.None? then Unreadable
        else
          match p.open(key.value, c[..24], c[24..])
          case Some(m) => Text(p.decode(m))
          case None => Unreadable
  }

  function DecryptLegacy(p: Primitives, key: Option<Key>, inner: string): Opened {
    if inner == "" || key.None? then Unreadable
    else
      match p.atob(if IsTagged(inner) then inner[TAG_HEX_LEN + 1..] else inner)
      case None => Threw
      case Some(b) =>
        var text := p.decode(Xor(b, key.value));
        if IsTagged(inner) && p.tag(text) != inner[..TAG_HEX_LEN] then Unreadable else Text(text)
  }

  function DecryptInner(p: Primitives, sodium: bool, key: Option<Key>, inner: string): Opened {
    if IsV2(inner) then DecryptV2(p, sodium, key, inner) else DecryptLegacy(p, key, inner)
  }

  // ----- Formats -----

  /** No value of one format can be taken for another, whatever the keys, nonces and texts. */
  lemma FormatsAreDisjoint(p: Primitives, key: Key, nonce: Nonce, text: string)
    requires p.Lawful()
    ensures IsV2(SealV2(p, key, nonce, text)) && !IsTagged(SealV2(p, key, nonce, text))
    ensures IsTagged(Tagged(p, key, text)) && !IsV2(Tagged(p, key, text))
    ensures !IsTagged(Bare(p, key, text)) && !IsV2(Bare(p, key, text))
  {
    var v2, tagged, bare := SealV2(p, key, nonce, text), Tagged(p, key, text), Bare(p, key, text);
    var body := p.btoa(nonce + p.seal(key, nonce, p.encode(text)));
    assert v2[..3] == V2_PREFIX && v2[3..] == body;
    if |v2| > TAG_HEX_LEN {
      NoDotAt(body, TAG_HEX_LEN - 3);
    }
    assert tagged[0] in p.tag(text);
    if |bare| > TAG_HEX_LEN {
      NoDotAt(bare, TAG_HEX_LEN);
    }
    if |bare| > 2 {
      NoDotAt(bare, 2);
    }
  }

  lemma NoDotAt(s: string, i: nat)
    requires '.' !in s && i < |s|
    ensures s[i] != '.'
  {
  }

  /** Every format opens under the key that wrote it; a leading byte order mark is lost, and defeats the tag. */
  lemma OwnKeyOpens(p: Primitives, key: Key, nonce: Nonce, text: string)
    requires p.Lawful()
    ensures DecryptInner(p, true, Some(key), SealV2(p, key, nonce, text)) == Text(StripMark(text))
    ensures forall sodium :: DecryptInner(p, sodium, Some(key), Tagged(p, key, text)) ==
                             (if p.tag(StripMark(text)) == p.tag(text) then Text(StripMark(text)) else Unreadable)
    ensures text != "" ==> DecryptInner(p, true, Some(key), Bare(p, key, text)) == Text(StripMark(text))
  {
    FormatsAreDisjoint(p, key, nonce, text);
    V2Opens(p, key, key, nonce, text);
    TaggedOpens(p, key, key, text);
    XorTwice(p.encode(text), key);
    var x := Xor(p.encode(text), key);
    assert p.atob(p.btoa(x)) == Some(x);
    assert x != [] ==> p.btoa(x) != p.btoa([]);
  }

  /** Whatever key is tried on a v2 value, it opens exactly under the key that sealed it. */
  lemma V2Opens(p: Primitives, key: Key, tried: Key, nonce: Nonce, text: string)
    requires p.Lawful()
    ensures DecryptInner(p, true, Some(tried), SealV2(p, key, nonce, text)) ==
            if tried == key then Text(StripMark(text)) else Unreadable
  {
    var inner := SealV2(p, key, nonce, text);
    var sealed := p.seal(key, nonce, p.encode(text));
    var c := nonce + sealed;
    assert inner[..3] == V2_PREFIX && inner[3..] == p.btoa(c);
    assert p.atob(p.btoa(c)) == Some(c);
    assert c[..24] == nonce && c[24..] == sealed;
    assert p.open(key, nonce, sealed) == Some(p.encode(text));
    assert tried != key ==> p.open(tried, nonce, sealed) == None;
  }

  /** A tagged value opens to the text its bytes give under the key tried, if the tag agrees. */
  lemma TaggedOpens(p: Primitives, key: Key, tried: Key, text: string)
    requires p.Lawful()
    ensures var seen := p.decode(Xor(Xor(p.encode(text), key), tried));
            forall sodium :: DecryptInner(p, sodium, Some(tried), Tagged(p, key, text)) ==
                             if p.tag(seen) == p.tag(text) then Text(seen) else Unreadable
    ensures p.decode(Xor(Xor(p.encode(text), key), key)) == StripMark(text)
  {
    var inner, x := Tagged(p, key, text), Xor(p.encode(text), key);
    assert inner[..TAG_HEX_LEN] == p.tag(text) && inner[TAG_HEX_LEN + 1..] == p.btoa(x);
    assert p.atob(p.btoa(x)) == Some(x);
    assert inner[0] in p.tag(text);
    XorTwice(p.encode(text), key);
  }

  /**
    The tag does not let `tried` show another text in place of `text`. The tag
    is 64 bits long, so this can be asked of the keys and texts of one device
    only, never of all of them.
  */
  ghost predicate TellsApart(p: Primitives, text: string, key: Key, tried: Key) {
    var seen := p.decode(Xor(Xor(p.encode(text), key), tried));
    p.tag(seen) == p.tag(text) ==> seen == text
  }
}
