/** Functions that meet all the laws asked of the browser and of libsodium at once, so the laws contradict nothing. */
module StorageExample {
  import opened Wrappers
  import opened StorageFormats

  // A character is written as that many ones and a zero.

  function Ones(n: nat): Bytes {
    seq(n, i => 1 as bv8)
  }

  function Encode(s: string): Bytes {
    if s == "" then [] else Ones(s[0] as int) + [0] + Encode(s[1..])
  }

  function ToChar(n: nat): char {
    if n < 0xD800 || 0xE000 <= n < 0x11_0000 then n as char else '?'
  }

  function DecodeFrom(b: Bytes, n: nat): string
    decreases |b|
  {
    if b == [] then ""
    else if b[0] == 0 then [ToChar(n)] + DecodeFrom(b[1..], 0)
    else DecodeFrom(b[1..], n + 1)
  }

  lemma {:induction false} DecodesOne(m: nat, n: nat, rest: Bytes)
    ensures DecodeFrom(Ones(m) + [0] + rest, n) == [ToChar(n + m)] + DecodeFrom(rest, 0)
    decreases m
  {
    var b := Ones(m) + [0] + rest;
    if m == 0 {
      assert b[1..] == rest;
    } else {
      assert b[1..] == Ones(m - 1) + [0] + rest;
      DecodesOne(m - 1, n + 1, rest);
    }
  }

  lemma {:induction false} Decodes(s: string)
    ensures DecodeFrom(Encode(s), 0) == s
  {
    if s != "" {
      DecodesOne(s[0] as int, 0, Encode(s[1..]));
      Decodes(s[1..]);
    }
  }

  // A byte is written as a character past the first 256.

  function Btoa(b: Bytes): string {
    seq(|b|, i requires 0 <= i < |b| => (b[i] as int + 0x100) as char)
  }

  predicate IsText(s: string) {
    forall i :: 0 <= i < |s| ==> 0x100 <= s[i] as int < 0x200
  }

  function Atob(s: string): Option<Bytes> {
    if IsText(s) then Some(seq(|s|, i requires 0 <= i < |s| => (s[i] as int - 0x100) as bv8)) else None
  }

  lemma AtobBtoa(b: Bytes)
    ensures Atob(Btoa(b)) == Some(b) && '.' !in Btoa(b)
  {
    assert forall i :: 0 <= i < |b| ==> Btoa(b)[i] as int == b[i] as int + 0x100;
    assert Atob(Btoa(b)).value == b;
  }

  function Open(key: Key, c: Bytes): Option<Bytes> {
    if |c| >= 32 && c[..32] == key then Some(c[32..]) else None
  }

  const BEFORE := "aaaaaaaaaa:aaaaaaaaaa"

  function Wrap(pw: string): Option<string> {
    if ':' in pw then None else Some(BEFORE + pw)
  }

  function Unwrap(e: string): Option<string> {
    if |e| < |BEFORE| then None else Some(e[|BEFORE|..])
  }

  /** Passwords that start with different letters give different keys. */
  function Stretch(pw: string): Key {
    seq(32, i => if i == 0 && pw != "" then (pw[0] as int % 256) as bv8 else 0)
  }

  /** Tells the sixteen hexadecimal digits apart, as texts, and from all other texts. */
  function Tag(s: string): string {
    if |s| == 1 && IsHex(s[0]) then "000000000000000" + s else "1000000000000000"
  }

  function Example(): Primitives {
    Primitives(
      Encode,
      b => StripMark(DecodeFrom(b, 0)),
      Btoa,
      Atob,
      Tag,
      (k: Key, n: Nonce, m: Bytes) => k + m,
      (k: Key, n: Bytes, c: Bytes) => Open(k, c),
      (n: Nonce, pw: string, dev: string) => Wrap(pw),
      (e: string, dev: string) => Unwrap(e),
      Stretch)
  }

  lemma ExampleIsLawful()
    ensures Example().Lawful()
  {
    ExampleText();
    ExampleBase64();
    ExampleTags();
    ExampleSeals();
    ExampleWraps();
  }

  lemma ExampleText()
    ensures Example().TextLaws()
  {
    forall s ensures Example().decode(Example().encode(s)) == StripMark(s) {
      Decodes(s);
    }
  }

  lemma ExampleBase64()
    ensures Example().Base64Laws()
  {
    forall b ensures Example().atob(Example().btoa(b)) == Some(b) && '.' !in Example().btoa(b) {
      AtobBtoa(b);
    }
  }

  lemma ExampleTags()
    ensures Example().TagLaw()
  {
    forall s: string
      ensures |Tag(s)| == TAG_HEX_LEN && forall c :: c in Tag(s) ==> IsHex(c)
    {
    }
  }

  lemma ExampleSeals()
    ensures Example().SealLaws()
  {
    var p := Example();
    forall k: Key, k': Key, n: Nonce, m: Bytes
      ensures p.seal(k, n, m) != [] && p.open(k, n, p.seal(k, n, m)) == Some(m)
      ensures k != k' ==> p.open(k', n, p.seal(k, n, m)) == None
    {
      assert (k + m)[..32] == k && (k + m)[32..] == m;
    }
  }

  lemma ExampleWraps()
    ensures Example().WrapLaw()
  {
    var p := Example();
    forall n: Nonce, pw: string, dev: string | p.wrap(n, pw, dev).Some?
      ensures p.IsWrapping(p.wrap(n, pw, dev).value, pw, dev)
    {
      WrapsOnce(pw);
    }
  }

  lemma WrapsOnce(pw: string)
    requires ':' !in pw
    ensures HasWrappedForm(BEFORE + pw) && (BEFORE + pw)[0] != MAGIC && Unwrap(BEFORE + pw) == Some(pw)
  {
    var e := BEFORE + pw;
    assert e[11..] == "aaaaaaaaaa" + pw;
    assert e[..10] == "aaaaaaaaaa";
    assert IsOnlyColon(e, 10);
    assert e[|BEFORE|..] == pw;
  }
}
