/** One encrypted Web Push record, and the receiver that RFC 8291 and RFC 8188 describe. */
module WebPush {
  import opened Octets
  import opened Hkdf
  import opened Wrappers

  const RECORD_SIZE := 4096
  const SALT := 16
  const PUBLIC := 65
  const HEADER := 86

  /**
    P-256 and AES-128-GCM: a public key is 65 octets, the two sides of a key
    agreement reach the same secret, and what was sealed opens again.
  */
  datatype Suite<!S(!new)> = Suite(
    hash: Hash,
    publicKey: S -> Bytes,
    agree: (S, Bytes) -> Option<Bytes>,
    seal: (Bytes, Bytes, Bytes) -> Bytes,
    open: (Bytes, Bytes, Bytes) -> Option<Bytes>)
  {
    ghost predicate Lawful() {
      && hash.Lawful()
      && (forall s: S :: |publicKey(s)| == PUBLIC)
      && (forall s: S, t: S :: agree(s, publicKey(t)).Some? && agree(s, publicKey(t)) == agree(t, publicKey(s)))
      && (forall k: Bytes, n: Bytes, p: Bytes :: |seal(k, n, p)| == |p| + 16 && open(k, n, seal(k, n, p)) == Some(p))
    }
  }

  function Ascii(s: string): (b: Bytes)
    ensures |b| == |s|
  {
    seq(|s|, i requires 0 <= i < |s| => s[i] as int % 256)
  }

  datatype Keys = Keys(cek: Bytes, nonce: Bytes, senderPublic: Bytes)

  // ----- The sender -----

  /** Fails only on a subscription key that is no curve point. */
  method DeriveWebPushKeys<S(!new)>(suite: Suite<S>, secret: S, salt: Bytes, receiverPublic: Bytes, auth: Bytes)
      returns (r: Result<Keys>)
    requires suite.Lawful()
    ensures r.Err? <==> suite.agree(secret, receiverPublic).None?
    ensures r.Ok? ==>
              && r.value.senderPublic == suite.publicKey(secret)
              && var ecdh := suite.agree(secret, receiverPublic).value;
                 var (cek, nonce) := RecordKeys(suite.hash, ecdh, salt, receiverPublic, suite.publicKey(secret), auth);
                 r.value.cek == cek && r.value.nonce == nonce
  {
    var h, senderPublic := suite.hash, suite.publicKey(secret);
    var ecdh := suite.agree(secret, receiverPublic);
    if ecdh.None? {
      return Err;
    }
    var prkKey := h.hmac(auth, ecdh.value);
    var keyInfo := Ascii("WebPush: info") + [0];
    keyInfo := keyInfo + receiverPublic;
    keyInfo := keyInfo + senderPublic;
    var ikm := ServerExpand(h, prkKey, keyInfo, 32);
    OkmOneBlock(h, prkKey, keyInfo, 32);
    var prk := h.hmac(salt, ikm.value);
    var cek := ServerExpand(h, prk, CekInfo(), 16);
    OkmOneBlock(h, prk, CekInfo(), 16);
    var nonce := ServerExpand(h, prk, NonceInfo(), 12);
    OkmOneBlock(h, prk, NonceInfo(), 12);
    assert ikm.value == h.hmac(prkKey, keyInfo + [1]);
    return Ok(Keys(cek.value, nonce.value, senderPublic));
  }

  function CekInfo(): Bytes {
    Ascii("Content-Encoding: aes128gcm") + [0]
  }

  function NonceInfo(): Bytes {
    Ascii("Content-Encoding: nonce") + [0]
  }

  function BigEndian32(n: nat): Bytes
    requires n < 0x1_0000_0000
  {
    [n / 0x100_0000, n / 0x1_0000 % 256, n / 256 % 256, n % 256]
  }

  method EncryptRecord<S(!new)>(suite: Suite<S>, secret: S, salt: Bytes, receiverPublic: Bytes, auth: Bytes, payload: Bytes)
      returns (r: Result<Bytes>)
    requires suite.Lawful()
    ensures r.Err? <==> suite.agree(secret, receiverPublic).None?
    ensures r.Ok? ==> IsRecord(suite, secret, salt, receiverPublic, auth, payload, r.value)
  {
    var keys := DeriveWebPushKeys(suite, secret, salt, receiverPublic, auth);
    if keys.Err? {
      return Err;
    }
    var record := payload + [2];
    var ct := suite.seal(keys.value.cek, keys.value.nonce, record);
    var out: Bytes := salt;
    out := out + BigEndian32(RECORD_SIZE);
    out := out + [PUBLIC];
    out := out + keys.value.senderPublic;
    out := out + ct;
    return Ok(out);
  }

  /** The message as sent: it needs a 16-octet auth secret. */
  method EncryptWebPushMessage<S(!new)>(suite: Suite<S>, receiverPublic: Bytes, auth: Bytes, payload: Bytes, secret: S, salt: Bytes)
      returns (r: Result<Bytes>)
    requires suite.Lawful() && |salt| == SALT
    ensures r.Err? <==> |auth| != 16 || suite.agree(secret, receiverPublic).None?
    ensures r.Ok? ==> IsRecord(suite, secret, salt, receiverPublic, auth, payload, r.value)
  {
    if |auth| != 16 {
      return Err;
    }
    r := EncryptRecord(suite, secret, salt, receiverPublic, auth, payload);
  }

  // ----- The standard -----

  /** Section 3.4 of RFC 8291: the content encryption key and nonce of a record. */
  function RecordKeys(h: Hash, ecdh: Bytes, salt: Bytes, receiverPublic: Bytes, senderPublic: Bytes, auth: Bytes): (Bytes, Bytes)
    requires h.Lawful()
  {
    var prkKey := h.hmac(auth, ecdh);
    var keyInfo := Ascii("WebPush: info") + [0] + receiverPublic + senderPublic;
    var ikm := h.hmac(prkKey, keyInfo + [1]);
    var prk := h.hmac(salt, ikm);
    (h.hmac(prk, Ascii("Content-Encoding: aes128gcm") + [0] + [1])[..16], h.hmac(prk, Ascii("Content-Encoding: nonce") + [0] + [1])[..12])
  }

  ghost predicate IsRecord<S(!new)>(suite: Suite<S>, secret: S, salt: Bytes, receiverPublic: Bytes, auth: Bytes, payload: Bytes, body: Bytes)
    requires suite.Lawful()
  {
    && suite.agree(secret, receiverPublic).Some?
    && var ecdh := suite.agree(secret, receiverPublic).value;
       var (cek, nonce) := RecordKeys(suite.hash, ecdh, salt, receiverPublic, suite.publicKey(secret), auth);
       body == salt + BigEndian32(RECORD_SIZE) + [PUBLIC] + suite.publicKey(secret) + suite.seal(cek, nonce, payload + [2])
  }

  /** Section 2 of RFC 8188: trailing zero octets, then the delimiter of a last record. */
  function Unpadded(record: Bytes): Option<Bytes> {
    if record == [] then None
    else
      var n := |record| - 1;
      if record[n] == 0 then Unpadded(record[..n]) else if record[n] == 2 then Some(record[..n]) else None
  }

  function ReadBigEndian32(b: Bytes): nat
    requires |b| == 4
  {
    b[0] as int * 0x100_0000 + b[1] as int * 0x1_0000 + b[2] as int * 256 + b[3] as int
  }

  /**
    The receiver: it parses the header, takes the sender's key from it, checks
    that the single record keeps to its announced size (section 4 of RFC 8291),
    re-derives the keys and opens.
  */
  function Receive<S(!new)>(suite: Suite<S>, secret: S, auth: Bytes, body: Bytes): Option<Bytes>
    requires suite.hash.Lawful()
  {
    if |body| < 21 || |body| < 21 + body[20] as int then None
    else
      var salt, rs, keyId, ct := body[..16], ReadBigEndian32(body[16..20]), body[21..21 + body[20] as int], body[21 + body[20] as int..];
      if |ct| >= rs then None
      else
        match suite.agree(secret, keyId)
        case None => None
        case Some(ecdh) =>
          var (cek, nonce) := RecordKeys(suite.hash, ecdh, salt, suite.publicKey(secret), keyId, auth);
          match suite.open(cek, nonce, ct)
          case None => None
          case Some(record) => Unpadded(record)
  }

  lemma RecordLayout<S(!new)>(suite: Suite<S>, secret: S, salt: Bytes, receiverPublic: Bytes, auth: Bytes, payload: Bytes, body: Bytes)
    requires suite.Lawful() && |salt| == SALT
    requires IsRecord(suite, secret, salt, receiverPublic, auth, payload, body)
    ensures |body| == HEADER + |payload| + 17
    ensures body[..16] == salt && ReadBigEndian32(body[16..20]) == RECORD_SIZE && body[20] == PUBLIC
    ensures body[21..HEADER] == suite.publicKey(secret)
    ensures var ecdh := suite.agree(secret, receiverPublic).value;
            var (cek, nonce) := RecordKeys(suite.hash, ecdh, salt, receiverPublic, suite.publicKey(secret), auth);
            body[HEADER..] == suite.seal(cek, nonce, payload + [2])
  {
    assert body[16..20] == BigEndian32(RECORD_SIZE);
  }

  /**
    The holder of the subscription's private key recovers exactly the payload
    from what was sent to it, if and only if the payload has at most 4078
    octets: beyond that the record outgrows the size it announces.
  */
  lemma ReceiverRecoversPayloadIff<S(!new)>(suite: Suite<S>, sender: S, receiver: S, salt: Bytes, auth: Bytes, payload: Bytes, body: Bytes)
    requires suite.Lawful() && |salt| == SALT
    requires IsRecord(suite, sender, salt, suite.publicKey(receiver), auth, payload, body)
    ensures |body| == HEADER + |payload| + 17
    ensures Receive(suite, receiver, auth, body) == Some(payload) <==> |payload| <= 4078
  {
    RecordLayout(suite, sender, salt, suite.publicKey(receiver), auth, payload, body);
    assert Unpadded(payload + [2]) == Some(payload) by {
      assert (payload + [2])[..|payload|] == payload;
    }
  }
}
