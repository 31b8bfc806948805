/** Byte strings and the keyed hash both key-derivation loops are built on. */
module Octets {
  type Octet = x: int | 0 <= x < 256
  type Bytes = seq<Octet>

  /** HMAC-SHA256 and SHA-256, as far as the derivations depend on them: both yield 32 octets. */
  datatype Hash = Hash(hmac: (Bytes, Bytes) -> Bytes, sha256: Bytes -> Bytes) {
    ghost predicate Lawful() {
      (forall k, m :: |hmac(k, m)| == 32) && (forall m :: |sha256(m)| == 32)
    }
  }
}

/** The expand step of RFC 5869, and the browser's and the server's loops that compute it. */
module Hkdf {
  import opened Octets
  import opened Wrappers

  const MAX_BLOCKS := 255

  /** T(n) of section 2.3 of RFC 5869. */
  function T(h: Hash, prk: Bytes, info: Bytes, n: nat): Bytes
    requires n <= MAX_BLOCKS
  {
    if n == 0 then [] else h.hmac(prk, T(h, prk, info, n - 1) + info + [n])
  }

  /** T(1) | T(2) | ... | T(n) */
  function Blocks(h: Hash, prk: Bytes, info: Bytes, n: nat): Bytes
    requires n <= MAX_BLOCKS
  {
    if n == 0 then [] else Blocks(h, prk, info, n - 1) + T(h, prk, info, n)
  }

  lemma {:induction false} BlocksLength(h: Hash, prk: Bytes, info: Bytes, n: nat)
    requires h.Lawful() && n <= MAX_BLOCKS
    ensures |Blocks(h, prk, info, n)| == 32 * n
  {
    if n > 0 {
      BlocksLength(h, prk, info, n - 1);
    }
  }

  lemma {:induction false} BlocksPrefix(h: Hash, prk: Bytes, info: Bytes, m: nat, n: nat)
    requires h.Lawful() && m <= n <= MAX_BLOCKS
    ensures Blocks(h, prk, info, m) <= Blocks(h, prk, info, n)
    decreases n
  {
    if m < n {
      BlocksPrefix(h, prk, info, m, n - 1);
    }
  }

  function BlocksFor(len: nat): nat {
    (len + 31) / 32
  }

  /** The first `len` octets of output keying material. */
  function Okm(h: Hash, prk: Bytes, info: Bytes, len: nat): (okm: Bytes)
    requires h.Lawful() && len <= 32 * MAX_BLOCKS
    ensures |okm| == len
  {
    BlocksLength(h, prk, info, BlocksFor(len));
    Blocks(h, prk, info, BlocksFor(len))[..len]
  }

  /** A shorter output is a prefix of every longer one. */
  lemma OkmPrefix(h: Hash, prk: Bytes, info: Bytes, short: nat, long: nat)
    requires h.Lawful() && short <= long <= 32 * MAX_BLOCKS
    ensures Okm(h, prk, info, short) == Okm(h, prk, info, long)[..short]
  {
    BlocksPrefix(h, prk, info, BlocksFor(short), BlocksFor(long));
    BlocksLength(h, prk, info, BlocksFor(short));
  }

  /** Up to one hash length, expanding is a single keyed hash of the info and the octet 1. */
  lemma OkmOneBlock(h: Hash, prk: Bytes, info: Bytes, len: nat)
    requires h.Lawful() && 1 <= len <= 32
    ensures Okm(h, prk, info, len) == h.hmac(prk, info + [1])[..len]
  {
    assert BlocksFor(len) == 1;
    assert T(h, prk, info, 1) == h.hmac(prk, [] + info + [1]);
    assert [] + info + [1] == info + [1];
    assert Blocks(h, prk, info, 1) == [] + T(h, prk, info, 1);
  }

  /** Every block is the keyed hash of the block before it, the info and the block's number. */
  lemma OkmBlock(h: Hash, prk: Bytes, info: Bytes, len: nat, i: nat)
    requires h.Lawful() && len <= 8160 && 1 <= i && 32 * i <= len
    ensures var okm := Okm(h, prk, info, len);
            okm[32 * i - 32..32 * i] == h.hmac(prk, (if i == 1 then [] else okm[32 * i - 64..32 * i - 32]) + info + [i])
  {
    BlockAt(h, prk, info, len, i);
    if i > 1 {
      BlockAt(h, prk, info, len, i - 1);
    }
  }

  lemma BlockAt(h: Hash, prk: Bytes, info: Bytes, len: nat, i: nat)
    requires h.Lawful() && len <= 8160 && 1 <= i && 32 * i <= len
    ensures Okm(h, prk, info, len)[32 * i - 32..32 * i] == T(h, prk, info, i)
  {
    BlocksPrefix(h, prk, info, i, BlocksFor(len));
    BlocksLength(h, prk, info, i - 1);
    BlocksLength(h, prk, info, i);
    BlocksLength(h, prk, info, BlocksFor(len));
    var okm, upTo := Okm(h, prk, info, len), Blocks(h, prk, info, i);
    assert okm[..32 * i] == upTo;
    assert okm[32 * i - 32..32 * i] == okm[..32 * i][32 * i - 32..];
  }

  /** The browser's HMAC first hashes a key that is not 32 octets long. */
  function BrowserHmac(h: Hash, key: Bytes, msg: Bytes): Bytes {
    h.hmac(if |key| != 32 then h.sha256(key) else key, msg)
  }

  /**
    The browser's `hkdf`: a length of zero means 32, and the loop counter is
    stored into a single octet. Up to 255 blocks it expands as the standard
    says.
  */
  method BrowserHkdf(h: Hash, ikm: Bytes, salt: Bytes, info: Bytes, len: nat) returns (result: Bytes)
    requires h.Lawful()
    ensures |result| == if len == 0 then 32 else len
    ensures len <= 8160 ==>
              result == Okm(h, h.hmac(if |ikm| != 32 then h.sha256(ikm) else ikm, salt), info, |result|)
  {
    var prk := BrowserHmac(h, ikm, salt);
    var lenNum := if len == 0 then 32 else len;
    var t: Bytes := [];
    result := [];
    var i := 1;
    while |result| < lenNum
      invariant i >= 1 && |result| == if 32 * (i - 1) < lenNum then 32 * (i - 1) else lenNum
      invariant i > 1 ==> 32 * (i - 2) < lenNum
      invariant lenNum <= 32 * MAX_BLOCKS ==>
                  t == T(h, prk, info, i - 1) && result <= Blocks(h, prk, info, i - 1)
      decreases lenNum - |result|
    {
      t := BrowserHmac(h, prk, t + info + [i % 256]);
      var toCopy := if |t| < lenNum - |result| then |t| else lenNum - |result|;
      if lenNum <= 32 * MAX_BLOCKS {
        BlocksLength(h, prk, info, i - 1);
        assert result == Blocks(h, prk, info, i - 1);
      }
      result := result + t[..toCopy];
      i := i + 1;
    }
    if lenNum <= 32 * MAX_BLOCKS {
      assert i - 1 == BlocksFor(lenNum);
      BlocksLength(h, prk, info, i - 1);
      assert result == Blocks(h, prk, info, i - 1)[..lenNum];
    }
  }

  /**
    The server's `hkdf_expand`. Its counter is a single octet that is
    incremented once more after the last block, so the 255th block already
    overflows it: `Err` is that overflow.
  */
  method ServerExpand(h: Hash, prk: Bytes, info: Bytes, outLen: nat) returns (r: Result<Bytes>)
    requires h.Lawful()
    ensures r.Ok? <==> outLen <= 8128
    ensures r.Ok? ==> r.value == Okm(h, prk, info, outLen)
  {
    var out: Bytes, t: Bytes, counter := [], [], 1;
    while |out| < outLen
      invariant 1 <= counter <= 255
      invariant |out| == 32 * (counter - 1) && (counter > 1 ==> 32 * (counter - 2) < outLen)
      invariant t == T(h, prk, info, counter - 1) && out == Blocks(h, prk, info, counter - 1)
      decreases outLen - |out|
    {
      var msg := t + info + [counter];
      t := h.hmac(prk, msg);
      out := out + t;
      if counter == 255 {
        return Err;
      }
      counter := counter + 1;
    }
    assert counter - 1 == BlocksFor(outLen);
    return Ok(out[..outLen]);
  }
}
