/** Files encrypted in chunks, and the decryption that finds the chunks again by size. */
module FileChunks {
  import opened Octets
  import opened Wrappers

  const NONCE := 24
  const TAG := 16
  const CHUNK_PLAINTEXT := 65536
  const CHUNK_ENCRYPTED := CHUNK_PLAINTEXT + TAG + NONCE

  /** An authenticated cipher whose associated data is the number of a chunk. */
  datatype Cipher = Cipher(seal: (Bytes, nat, Bytes, Bytes) -> Bytes, open: (Bytes, nat, Bytes, Bytes) -> Option<Bytes>) {
    ghost predicate Lawful() {
      && (forall k, i, n, p :: |seal(k, i, n, p)| == |p| + TAG)
      && (forall k, i, n, p :: open(k, i, n, seal(k, i, n, p)) == Some(p))
      && (forall k, i, j, n, p :: i != j ==> open(k, j, n, seal(k, i, n, p)) == None)
    }
  }

  /** `nonce` is the chunk's fresh randomness. */
  function EncryptChunk(c: Cipher, key: Bytes, chunk: Bytes, i: nat, nonce: Bytes): Bytes {
    nonce + c.seal(key, i, nonce, chunk)
  }

  function DecryptChunk(c: Cipher, key: Bytes, data: Bytes, i: nat): Result<Bytes> {
    if |data| < NONCE + TAG then Err
    else
      match c.open(key, i, data[..NONCE], data[NONCE..])
      case Some(p) => Ok(p)
      case None => Err
  }

  /** The file from chunk `i` on. */
  function EncryptFrom(c: Cipher, key: Bytes, chunks: seq<Bytes>, nonces: seq<Bytes>, i: nat): Bytes
    requires |nonces| == |chunks| && i <= |chunks|
    decreases |chunks| - i
  {
    if i == |chunks| then []
    else EncryptChunk(c, key, chunks[i], i, nonces[i]) + EncryptFrom(c, key, chunks, nonces, i + 1)
  }

  function Joined(chunks: seq<Bytes>): Bytes {
    if chunks == [] then [] else Joined(chunks[..|chunks| - 1]) + chunks[|chunks| - 1]
  }

  function Min(a: nat, b: nat): nat {
    if a < b then a else b
  }

  /** What decrypting piece after piece gives, from piece `i` on; any piece that fails to open fails the file. */
  function DecryptFrom(c: Cipher, key: Bytes, data: Bytes, i: nat): Result<seq<Bytes>>
    decreases |data|
  {
    if data == [] then Ok([])
    else
      var take := Min(|data|, CHUNK_ENCRYPTED);
      match DecryptChunk(c, key, data[..take], i)
      case Err => Err
      case Ok(p) =>
        match DecryptFrom(c, key, data[take..], i + 1)
        case Err => Err
        case Ok(ps) => Ok([p] + ps)
  }

  function PiecesIn(len: nat): nat {
    (len + CHUNK_ENCRYPTED - 1) / CHUNK_ENCRYPTED
  }

  function Then(done: seq<Bytes>, rest: Result<seq<Bytes>>): Result<seq<Bytes>> {
    if rest.Err? then Err else Ok(done + rest.value)
  }

  lemma ThenThen(a: seq<Bytes>, b: seq<Bytes>, rest: Result<seq<Bytes>>)
    ensures Then(a, Then(b, rest)) == Then(a + b, rest)
  {
    if rest.Ok? {
      assert a + (b + rest.value) == (a + b) + rest.value;
    }
  }

  lemma ThenNothing(rest: Result<seq<Bytes>>)
    ensures Then([], rest) == rest
  {
    if rest.Ok? {
      assert [] + rest.value == rest.value;
    }
  }

  /** The pieces start at multiples of the encrypted chunk size. */
  lemma OnePiece(c: Cipher, key: Bytes, data: Bytes, start: nat, i: nat)
    requires start < |data|
    ensures var end := Min(start + CHUNK_ENCRYPTED, |data|);
            var piece := DecryptChunk(c, key, data[start..end], i);
            DecryptFrom(c, key, data[start..], i) ==
            if piece.Err? then Err else Then([piece.value], DecryptFrom(c, key, data[end..], i + 1))
  {
    var end := Min(start + CHUNK_ENCRYPTED, |data|);
    assert data[start..][..end - start] == data[start..end];
    assert data[start..][end - start..] == data[end..];
  }

  lemma PieceBounds(len: nat, i: nat)
    requires i < PiecesIn(len)
    ensures i * CHUNK_ENCRYPTED < len
    ensures i < PiecesIn(len) - 1 <==> (i + 1) * CHUNK_ENCRYPTED < len
  {
  }

  method DecryptPieces(c: Cipher, key: Bytes, data: Bytes) returns (r: Result<seq<Bytes>>)
    ensures r == DecryptFrom(c, key, data, 0)
  {
    var total := PiecesIn(|data|);
    var pieces: seq<Bytes> := [];
    ghost var at := 0;
    ThenNothing(DecryptFrom(c, key, data, 0));
    assert data[0..] == data;
    for i := 0 to total
      invariant at == Min(i * CHUNK_ENCRYPTED, |data|)
      invariant DecryptFrom(c, key, data, 0) == Then(pieces, DecryptFrom(c, key, data[at..], i))
    {
      var start := i * CHUNK_ENCRYPTED;
      PieceBounds(|data|, i);
      var chunk := if i < total - 1 then data[start..start + CHUNK_ENCRYPTED] else data[start..];
      at := Min(start + CHUNK_ENCRYPTED, |data|);
      assert chunk == data[start..at];
      OnePiece(c, key, data, start, i);
      var piece := DecryptChunk(c, key, chunk, i);
      if piece.Err? {
        return Err;
      }
      ThenThen(pieces, [piece.value], DecryptFrom(c, key, data[at..], i + 1));
      pieces := pieces + [piece.value];
    }
    assert data[at..] == [];
    assert pieces + [] == pieces;
    return Ok(pieces);
  }

  method DecryptFile(c: Cipher, key: Bytes, data: Bytes) returns (r: Result<Bytes>)
    ensures match DecryptFrom(c, key, data, 0)
            case Err => r == Err
            case Ok(ps) => r == Ok(Joined(ps))
  {
    var pieces := DecryptPieces(c, key, data);
    if pieces.Err? {
      return Err;
    }
    r := JoinPieces(pieces.value);
  }

  method JoinPieces(pieces: seq<Bytes>) returns (r: Result<Bytes>)
    ensures r == Ok(Joined(pieces))
  {
    var result: Bytes := [];
    for j := 0 to |pieces|
      invariant result == Joined(pieces[..j])
    {
      assert pieces[..j + 1][..j] == pieces[..j];
      result := result + pieces[j];
    }
    assert pieces[..|pieces|] == pieces;
    return Ok(result);
  }

  /** Every chunk is full but the last, which may be short or empty. */
  predicate WellCut(chunks: seq<Bytes>) {
    && (forall i :: 0 <= i < |chunks| - 1 ==> |chunks[i]| == 65536)
    && (forall i :: 0 <= i < |chunks| ==> |chunks[i]| <= 65536)
  }

  /** A full piece, or the last one, is cut off as it was put on. */
  lemma FirstPiece(c: Cipher, key: Bytes, first: Bytes, rest: Bytes, i: nat)
    requires 0 < |first| <= CHUNK_ENCRYPTED && (|first| == CHUNK_ENCRYPTED || rest == [])
    ensures DecryptFrom(c, key, first + rest, i) ==
            match DecryptChunk(c, key, first, i)
            case Err => Err
            case Ok(p) => Then([p], DecryptFrom(c, key, rest, i + 1))
  {
    var data := first + rest;
    var take := Min(|data|, CHUNK_ENCRYPTED);
    assert data[..take] == first && data[take..] == rest;
  }

  lemma {:induction false} RoundTripFrom(c: Cipher, key: Bytes, chunks: seq<Bytes>, nonces: seq<Bytes>, i: nat)
    requires c.Lawful() && WellCut(chunks) && |nonces| == |chunks| && i <= |chunks|
    requires forall j :: 0 <= j < |nonces| ==> |nonces[j]| == NONCE
    ensures DecryptFrom(c, key, EncryptFrom(c, key, chunks, nonces, i), i) == Ok(chunks[i..])
    decreases |chunks| - i
  {
    if i < |chunks| {
      var first := EncryptChunk(c, key, chunks[i], i, nonces[i]);
      var rest := EncryptFrom(c, key, chunks, nonces, i + 1);
      RoundTripFrom(c, key, chunks, nonces, i + 1);
      ChunkOpensInPlace(c, key, chunks[i], i, nonces[i], i);
      assert i == |chunks| - 1 ==> rest == [];
      FirstPiece(c, key, first, rest, i);
      assert chunks[i..] == [chunks[i]] + chunks[i + 1..];
    }
  }

  /** Decrypting an encrypted file gives its chunks back, joined: the sizes alone locate them. */
  lemma FileRoundTrip(c: Cipher, key: Bytes, chunks: seq<Bytes>, nonces: seq<Bytes>)
    requires c.Lawful() && WellCut(chunks) && |nonces| == |chunks|
    requires forall j :: 0 <= j < |nonces| ==> |nonces[j]| == NONCE
    ensures DecryptFrom(c, key, EncryptFrom(c, key, chunks, nonces, 0), 0) == Ok(chunks)
  {
    RoundTripFrom(c, key, chunks, nonces, 0);
  }

  // ----- Chunks out of their places -----

  /** A chunk opens under its own number only. */
  lemma ChunkOpensInPlace(c: Cipher, key: Bytes, chunk: Bytes, i: nat, nonce: Bytes, j: nat)
    requires c.Lawful() && |nonce| == NONCE
    ensures DecryptChunk(c, key, EncryptChunk(c, key, chunk, i, nonce), j) == if i == j then Ok(chunk) else Err
  {
    var data := EncryptChunk(c, key, chunk, i, nonce);
    assert data[..NONCE] == nonce && data[NONCE..] == c.seal(key, i, nonce, chunk);
  }

  /** A chunk of a file, encrypted under some number. */
  datatype Piece = Piece(chunk: Bytes, number: nat, nonce: Bytes)

  /** Pieces put one after the other, from place `i` on. */
  function Laid(c: Cipher, key: Bytes, pieces: seq<Piece>, i: nat): Bytes
    requires i <= |pieces|
    decreases |pieces| - i
  {
    if i == |pieces| then []
    else EncryptChunk(c, key, pieces[i].chunk, pieces[i].number, pieces[i].nonce) + Laid(c, key, pieces, i + 1)
  }

  predicate Fits(pieces: seq<Piece>) {
    && (forall i :: 0 <= i < |pieces| ==> |pieces[i].nonce| == 24 && |pieces[i].chunk| <= 65536)
    && (forall i :: 0 <= i < |pieces| - 1 ==> |pieces[i].chunk| == 65536)
  }

  function ChunksFrom(pieces: seq<Piece>, i: nat): (chunks: seq<Bytes>)
    requires i <= |pieces|
  {
    seq(|pieces| - i, (j: nat) requires j < |pieces| - i => pieces[i + j].chunk)
  }

  lemma {:induction false} OpensInPlaceFrom(c: Cipher, key: Bytes, pieces: seq<Piece>, i: nat)
    requires c.Lawful() && Fits(pieces) && i <= |pieces|
    ensures DecryptFrom(c, key, Laid(c, key, pieces, i), i) ==
            if forall j :: i <= j < |pieces| ==> pieces[j].number == j then Ok(ChunksFrom(pieces, i)) else Err
    decreases |pieces| - i
  {
    if i < |pieces| {
      var p := pieces[i];
      var first, rest := EncryptChunk(c, key, p.chunk, p.number, p.nonce), Laid(c, key, pieces, i + 1);
      OpensInPlaceFrom(c, key, pieces, i + 1);
      ChunkOpensInPlace(c, key, p.chunk, p.number, p.nonce, i);
      assert i == |pieces| - 1 ==> rest == [];
      FirstPiece(c, key, first, rest, i);
      assert ChunksFrom(pieces, i) == [p.chunk] + ChunksFrom(pieces, i + 1);
    } else {
      assert ChunksFrom(pieces, i) == [];
    }
  }

  /** A file decrypts if and only if every piece stands at the place it was encrypted for: none moved, doubled or left out before another. */
  lemma FileOpensIffInPlace(c: Cipher, key: Bytes, pieces: seq<Piece>)
    requires c.Lawful() && Fits(pieces)
    ensures DecryptFrom(c, key, Laid(c, key, pieces, 0), 0).Ok? <==> forall j :: 0 <= j < |pieces| ==> pieces[j].number == j
  {
    OpensInPlaceFrom(c, key, pieces, 0);
  }
}
