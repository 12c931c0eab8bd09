/** A file's way to the bucket and back: every size and name check on the way, and the read that reassembles it. */
module Upload {
  import opened Wrappers
  import opened Rows
  import opened ObjectKeys
  import opened Sealing

  const INTENT_MAX_CHUNKS := 1024
  const MAX_CHUNK_CIPHER_BYTES := 1_048_576 + 16
  const CHUNK_NAME_LIMIT := 1024
  const MIN_COMPRESS_BYTES := 64
  const TRAILER_NAME := "trailer"

  // ---- chunk names

  function Digit(d: nat): char
    requires d < 10
  {
    ('0' as nat + d) as char
  }

  predicate IsDigit(c: char) { '0' <= c <= '9' }

  /** `String(n)`. */
  function Decimal(n: nat): (text: string)
    ensures text != "" && forall i | 0 <= i < |text| :: IsDigit(text[i])
  {
    if n < 10 then [Digit(n)] else Decimal(n / 10) + [Digit(n % 10)]
  }

  /** `Number(text)` on digits. */
  function NumberOf(text: string): nat
    requires forall i | 0 <= i < |text| :: IsDigit(text[i])
  {
    if text == "" then 0
    else
      assert IsDigit(text[|text| - 1]);
      10 * NumberOf(text[..|text| - 1]) + (text[|text| - 1] as nat - '0' as nat)
  }

  lemma {:induction false} DecimalRoundTrip(n: nat)
    ensures NumberOf(Decimal(n)) == n
  {
    var text := Decimal(n);
    if n >= 10 {
      DecimalRoundTrip(n / 10);
      assert text[..|text| - 1] == Decimal(n / 10);
    } else {
      assert text[..0] == "";
    }
  }

  predicate IsChunkName(value: string) {
    value == TRAILER_NAME
    || (value != "" && (forall i | 0 <= i < |value| :: IsDigit(value[i])) && NumberOf(value) < CHUNK_NAME_LIMIT)
  }

  function ChunkKey(prefix: string, i: nat): string { ObjectKey(prefix, Decimal(i)) }

  function TrailerKey(prefix: string): string { ObjectKey(prefix, TRAILER_NAME) }

  lemma KeysDiffer(prefix: string, i: nat, j: nat)
    ensures ChunkKey(prefix, i) == ChunkKey(prefix, j) <==> i == j
    ensures ChunkKey(prefix, i) != TrailerKey(prefix)
  {
    ObjectKeyInjective(prefix, Decimal(i), Decimal(j));
    ObjectKeyInjective(prefix, Decimal(i), TRAILER_NAME);
    DecimalRoundTrip(i);
    DecimalRoundTrip(j);
    assert !IsDigit(TRAILER_NAME[0]);
  }

  // ---- the checks

  /** The request schema and the service's own bound. */
  predicate IntentAccepts(byteSize: nat, chunkCount: nat) {
    0 < byteSize <= FILE_MAX_BYTES + INTENT_SLACK_BYTES && 0 < chunkCount <= INTENT_MAX_CHUNKS
  }

  datatype Status = Stored | BadItem | TooLarge

  /** The edge's checks on one upload, in its order. */
  function UploadStatus(maxBytes: nat, name: string, length: nat): Status {
    if length == 0 then BadItem
    else if length > maxBytes || length > MAX_CHUNK_CIPHER_BYTES then TooLarge
    else if !IsChunkName(name) then BadItem
    else Stored
  }

  /** Digits of a name below 1024, in the usual notation: the last digit counts least. */
  lemma {:induction false} NumberIsDecimal(text: string)
    requires text != "" && forall i | 0 <= i < |text| :: IsDigit(text[i])
    ensures forall c :: '0' <= c <= '9' ==> NumberOf(text + [c]) == 10 * NumberOf(text) + (c as nat - 48)
    ensures NumberOf("1023") == 1023 && !IsChunkName("1024") && IsChunkName("1023")
  {
    forall c: char | '0' <= c <= '9' ensures NumberOf(text + [c]) == 10 * NumberOf(text) + (c as nat - 48) {
      assert (text + [c])[..|text|] == text;
    }
    assert "1023"[..3] == "102" && "102"[..2] == "10" && "10"[..1] == "1" && "1"[..0] == "";
    assert "1024"[..3] == "102";
    assert NumberOf("1") == 1 && NumberOf("10") == 10 && NumberOf("102") == 102;
    assert "1024" != TRAILER_NAME by { assert "1024"[0] != TRAILER_NAME[0]; }
  }

  predicate CommitAccepts(statBytes: nat, blobBytes: nat) { 0 < statBytes <= blobBytes }

  function CipherBytes(s: Sealed): nat { TotalLength(s.chunks) + |s.trailer| }

  // ---- the bucket

  /** The bucket after the first n chunks were put. */
  function WithChunks(objects: map<string, Bytes>, prefix: string, chunks: seq<Bytes>, n: nat): map<string, Bytes>
    requires n <= |chunks|
  {
    if n == 0 then objects else WithChunks(objects, prefix, chunks, n - 1)[ChunkKey(prefix, n - 1) := chunks[n - 1]]
  }

  function WithBlob(objects: map<string, Bytes>, prefix: string, s: Sealed): map<string, Bytes> {
    WithChunks(objects, prefix, s.chunks, |s.chunks|)[TrailerKey(prefix) := s.trailer]
  }

  /** Chunks 0, 1, ... until the first that is missing, at most 1024 of them. */
  function Fetched(objects: map<string, Bytes>, prefix: string, from: nat): seq<Bytes>
    decreases CHUNK_NAME_LIMIT - from
  {
    if from >= CHUNK_NAME_LIMIT || ChunkKey(prefix, from) !in objects then []
    else [objects[ChunkKey(prefix, from)]] + Fetched(objects, prefix, from + 1)
  }

  class EdgeBucket {
    var objects: map<string, Bytes>

    method Put(prefix: string, maxBytes: nat, name: string, body: Bytes) returns (status: Status)
      modifies this
      ensures status == UploadStatus(maxBytes, name, |body|)
      ensures status.Stored? <==> 0 < |body| <= Min(maxBytes, 1_048_592) && IsChunkName(name)
      ensures status.TooLarge? <==> |body| > Min(maxBytes, 1_048_592)
      ensures objects == if status.Stored? then old(objects)[ObjectKey(prefix, name) := body] else old(objects)
    {
      if |body| <= 0 {
        return BadItem;
      }
      if |body| > maxBytes || |body| > MAX_CHUNK_CIPHER_BYTES {
        return TooLarge;
      }
      if !IsChunkName(name) {
        return BadItem;
      }
      objects := objects[ObjectKey(prefix, name) := body];
      return Stored;
    }

    method Get(prefix: string, name: string) returns (body: Option<Bytes>)
      ensures IsChunkName(name) ==>
                body == if ObjectKey(prefix, name) in objects then Some(objects[ObjectKey(prefix, name)]) else None
      ensures !IsChunkName(name) ==> body.None?
    {
      if !IsChunkName(name) || ObjectKey(prefix, name) !in objects {
        return None;
      }
      return Some(objects[ObjectKey(prefix, name)]);
    }

    /** Adds the sizes over one listing of the prefix. */
    method Stat(listing: seq<string>) returns (bytes: nat)
      requires forall k | k in listing :: k in objects
      ensures bytes == SumSizes(objects, listing)
    {
      bytes := 0;
      for i := 0 to |listing|
        invariant bytes + SumSizes(objects, listing[i..]) == SumSizes(objects, listing)
      {
        assert listing[i] in listing;
        bytes := bytes + |objects[listing[i]]|;
      }
    }
  }

  function SumSizes(objects: map<string, Bytes>, listing: seq<string>): nat
    requires forall k | k in listing :: k in objects
  {
    if listing == [] then 0 else |objects[listing[0]]| + SumSizes(objects, listing[1..])
  }

  /** The put loop of `sendBlobFile`: the chunks in order, then the trailer, giving up at the first refusal. */
  method SendChunks(edge: EdgeBucket, prefix: string, cap: nat, s: Sealed) returns (ok: bool)
    modifies edge
    ensures ok <==> (forall i | 0 <= i < |s.chunks| :: UploadStatus(cap, Decimal(i), |s.chunks[i]|).Stored?)
                    && UploadStatus(cap, TRAILER_NAME, |s.trailer|).Stored?
    ensures ok ==> edge.objects == WithBlob(old(edge.objects), prefix, s)
  {
    for i := 0 to |s.chunks|
      invariant edge.objects == WithChunks(old(edge.objects), prefix, s.chunks, i)
      invariant forall j | 0 <= j < i :: UploadStatus(cap, Decimal(j), |s.chunks[j]|).Stored?
    {
      var status := edge.Put(prefix, cap, Decimal(i), s.chunks[i]);
      if !status.Stored? {
        return false;
      }
    }
    var status := edge.Put(prefix, cap, TRAILER_NAME, s.trailer);
    return status.Stored?;
  }

  /** The fetch loop of `openBlobPreview`. */
  method FetchChunks(edge: EdgeBucket, prefix: string) returns (chunks: seq<Bytes>)
    ensures chunks == Fetched(edge.objects, prefix, 0)
  {
    chunks := [];
    var i := 0;
    while i < CHUNK_NAME_LIMIT
      invariant i <= CHUNK_NAME_LIMIT
      invariant Fetched(edge.objects, prefix, 0) == chunks + Fetched(edge.objects, prefix, i)
    {
      DecimalRoundTrip(i);
      var body := edge.Get(prefix, Decimal(i));
      if body.None? {
        break;
      }
      ghost var rest := Fetched(edge.objects, prefix, i + 1);
      assert chunks + ([body.value] + rest) == (chunks + [body.value]) + rest;
      chunks := chunks + [body.value];
      i := i + 1;
    }
    assert chunks + [] == chunks;
  }

  // ---- sizes

  lemma {:induction false} SealedLength(seal: Seal, baseIv: Bytes, parts: seq<Bytes>, aad: Bytes, n: nat)
    requires AddsTag(seal) && n <= |parts|
    ensures TotalLength(SealedChunks(seal, baseIv, parts, aad)[..n]) == TotalLength(parts[..n]) + TAG_LENGTH * n
  {
    if n > 0 {
      var chunks := SealedChunks(seal, baseIv, parts, aad);
      SealedLength(seal, baseIv, parts, aad, n - 1);
      FlattenAppend(chunks[..n - 1], chunks[n - 1]);
      FlattenAppend(parts[..n - 1], parts[n - 1]);
      assert chunks[..n] == chunks[..n - 1] + [chunks[n - 1]] && parts[..n] == parts[..n - 1] + [parts[n - 1]];
    }
  }

  /** Sealing adds sixteen bytes a chunk and a twenty-byte trailer. */
  lemma SealedSizes(seal: Seal, baseIv: Bytes, packed: Bytes, aad: Bytes)
    requires AddsTag(seal)
    ensures var s := Encrypt(seal, baseIv, packed, aad);
            && |s.chunks| == (|packed| + CHUNK_SIZE - 1) / CHUNK_SIZE
            && CipherBytes(s) == |packed| + TAG_LENGTH * |s.chunks| + 20 && |s.trailer| == 20
            && forall i | 0 <= i < |s.chunks| :: TAG_LENGTH < |s.chunks[i]| <= MAX_CHUNK_CIPHER_BYTES && |s.chunks[i]| <= CipherBytes(s)
  {
    var parts := SplitChunks(packed);
    var s := Encrypt(seal, baseIv, packed, aad);
    SplitThenFlatten(packed);
    FlattenLength(parts);
    SealedLength(seal, baseIv, parts, aad, |parts|);
    assert s.chunks[..|parts|] == s.chunks && parts[..|parts|] == parts;
    forall i | 0 <= i < |s.chunks| ensures |s.chunks[i]| <= TotalLength(s.chunks) {
      PrefixFits(s.chunks, i);
    }
  }

  /** Every check on the way lets a sealed file of at most the maximum through. */
  lemma PassesEveryCheck(seal: Seal, baseIv: Bytes, packed: Bytes, aad: Bytes)
    requires AddsTag(seal) && 0 < |packed| <= FILE_MAX_BYTES
    ensures var s := Encrypt(seal, baseIv, packed, aad);
            && IntentAccepts(CipherBytes(s), |s.chunks| + 1)
            && (forall i | 0 <= i < |s.chunks| :: UploadStatus(CipherBytes(s), Decimal(i), |s.chunks[i]|).Stored?)
            && UploadStatus(CipherBytes(s), TRAILER_NAME, |s.trailer|).Stored?
            && 0 < |s.chunks| <= 100
  {
    SealedSizes(seal, baseIv, packed, aad);
    var s := Encrypt(seal, baseIv, packed, aad);
    forall i | 0 <= i < |s.chunks| ensures IsChunkName(Decimal(i)) {
      DecimalRoundTrip(i);
    }
  }

  // ---- reading back

  lemma {:induction false} ChunkLookup(objects: map<string, Bytes>, prefix: string, chunks: seq<Bytes>, n: nat, i: nat)
    requires n <= |chunks| && forall j :: ChunkKey(prefix, j) !in objects
    ensures ChunkKey(prefix, i) in WithChunks(objects, prefix, chunks, n) <==> i < n
    ensures i < n ==> WithChunks(objects, prefix, chunks, n)[ChunkKey(prefix, i)] == chunks[i]
  {
    if n > 0 {
      ChunkLookup(objects, prefix, chunks, n - 1, i);
      KeysDiffer(prefix, i, n - 1);
    }
  }

  lemma {:induction false} FetchesChunks(objects: map<string, Bytes>, prefix: string, s: Sealed, from: nat)
    requires from <= |s.chunks| < CHUNK_NAME_LIMIT && forall j :: ChunkKey(prefix, j) !in objects
    ensures Fetched(WithBlob(objects, prefix, s), prefix, from) == s.chunks[from..]
    decreases |s.chunks| - from
  {
    KeysDiffer(prefix, from, from);
    ChunkLookup(objects, prefix, s.chunks, |s.chunks|, from);
    if from < |s.chunks| {
      FetchesChunks(objects, prefix, s, from + 1);
      assert s.chunks[from..] == [s.chunks[from]] + s.chunks[from + 1..];
    }
  }

  // ---- stat

  predicate Under(prefix: string, key: string) { |prefix| < |key| && key[..|prefix|] == prefix && key[|prefix|] == '/' }

  ghost predicate ListingOf(objects: map<string, Bytes>, prefix: string, listing: seq<string>) {
    && (forall i, j | 0 <= i < j < |listing| :: listing[i] != listing[j])
    && (forall k :: k in listing <==> k in objects && Under(prefix, k))
  }

  function BlobKeys(prefix: string, n: nat): (keys: seq<string>)
    ensures |keys| == n && forall i | 0 <= i < n :: keys[i] == ChunkKey(prefix, i)
  {
    seq(n, i requires 0 <= i < n => ChunkKey(prefix, i))
  }

  lemma {:induction false} SumSameKeys(objects: map<string, Bytes>, a: seq<string>, b: seq<string>)
    requires forall k | k in a :: k in objects
    requires forall i, j | 0 <= i < j < |a| :: a[i] != a[j]
    requires forall i, j | 0 <= i < j < |b| :: b[i] != b[j]
    requires forall k :: k in a <==> k in b
    ensures SumSizes(objects, a) == SumSizes(objects, b)
  {
    assert b == [] || (b[0] in b && b[0] in a);
    if a != [] {
      assert a[0] in b;
      var j :| 0 <= j < |b| && b[j] == a[0];
      var rest := b[..j] + b[j + 1..];
      forall i, k | 0 <= i < k < |rest| ensures rest[i] != rest[k] {
        assert rest[i] == b[if i < j then i else i + 1] && rest[k] == b[if k < j then k else k + 1];
      }
      assert forall k | k in rest :: k in b && k != b[j];
      forall k ensures k in a[1..] <==> k in rest {
        if k in b && k != b[j] {
          var i :| 0 <= i < |b| && b[i] == k;
          assert rest[if i < j then i else i - 1] == k;
        }
      }
      SumSameKeys(objects, a[1..], rest);
      SumWithout(objects, b, j);
    }
  }

  lemma {:induction false} SumWithout(objects: map<string, Bytes>, b: seq<string>, j: nat)
    requires j < |b| && forall k | k in b :: k in objects
    ensures forall k | k in b[..j] + b[j + 1..] :: k in objects
    ensures SumSizes(objects, b) == |objects[b[j]]| + SumSizes(objects, b[..j] + b[j + 1..])
  {
    assert b[j] in b;
    if j == 0 {
      assert b[..0] + b[1..] == b[1..];
    } else {
      assert forall k | k in b[1..] :: k in b;
      SumWithout(objects, b[1..], j - 1);
      assert (b[..j] + b[j + 1..])[1..] == b[1..][..j - 1] + b[1..][j..];
    }
  }

  lemma {:induction false} SumOfChunks(objects: map<string, Bytes>, prefix: string, chunks: seq<Bytes>, n: nat, rest: seq<string>)
    requires n <= |chunks| && (forall i | 0 <= i < n :: ChunkKey(prefix, i) in objects && objects[ChunkKey(prefix, i)] == chunks[i])
    requires forall k | k in rest :: k in objects
    ensures SumSizes(objects, BlobKeys(prefix, n) + rest) == TotalLength(chunks[..n]) + SumSizes(objects, rest)
  {
    if n == 0 {
      assert BlobKeys(prefix, 0) + rest == rest;
    } else {
      var last := ChunkKey(prefix, n - 1);
      SumOfChunks(objects, prefix, chunks, n - 1, [last] + rest);
      assert BlobKeys(prefix, n) + rest == BlobKeys(prefix, n - 1) + ([last] + rest);
      FlattenAppend(chunks[..n - 1], chunks[n - 1]);
      assert chunks[..n] == chunks[..n - 1] + [chunks[n - 1]];
    }
  }

  lemma {:induction false} KeysWithChunks(objects: map<string, Bytes>, prefix: string, chunks: seq<Bytes>, n: nat, k: string)
    requires n <= |chunks|
    ensures k in WithChunks(objects, prefix, chunks, n) <==> k in objects || exists i | 0 <= i < n :: k == ChunkKey(prefix, i)
  {
    if n > 0 {
      KeysWithChunks(objects, prefix, chunks, n - 1, k);
    }
  }

  /** However the edge lists the prefix, stat adds up to exactly the announced byte size, so commit accepts it. */
  lemma StatIsCipherBytes(objects: map<string, Bytes>, prefix: string, s: Sealed, listing: seq<string>)
    requires forall k | k in objects :: !Under(prefix, k)
    requires ListingOf(WithBlob(objects, prefix, s), prefix, listing)
    ensures SumSizes(WithBlob(objects, prefix, s), listing) == CipherBytes(s)
  {
    hide WithChunks, TotalLength, Decimal;
    var n, all := |s.chunks|, WithBlob(objects, prefix, s);
    var keys := BlobKeys(prefix, n) + [TrailerKey(prefix)];
    forall j ensures ChunkKey(prefix, j) !in objects {
      assert Under(prefix, ChunkKey(prefix, j));
    }
    forall i | 0 <= i < n ensures ChunkKey(prefix, i) in all && all[ChunkKey(prefix, i)] == s.chunks[i] {
      ChunkLookup(objects, prefix, s.chunks, n, i);
      KeysDiffer(prefix, i, i);
    }
    forall i, j | 0 <= i < j < |keys| ensures keys[i] != keys[j] {
      KeysDiffer(prefix, i, j);
    }
    forall k ensures k in listing <==> k in keys {
      KeysWithChunks(objects, prefix, s.chunks, n, k);
      assert Under(prefix, TrailerKey(prefix)) && forall i :: Under(prefix, ChunkKey(prefix, i));
      assert keys[n] == TrailerKey(prefix) && forall i | 0 <= i < n :: keys[i] == ChunkKey(prefix, i);
    }
    SumSameKeys(all, listing, keys);
    SumOfChunks(all, prefix, s.chunks, n, [TrailerKey(prefix)]);
    assert s.chunks[..n] == s.chunks;
  }

  // ---- the whole way

  /** gzip, and its inverse where it has one. */
  datatype Gzip = Gzip(zip: Bytes -> Bytes, unzip: Bytes -> Option<Bytes>)

  ghost predicate ZipsBack(g: Gzip) { forall b :: g.zip(b) != [] && g.unzip(g.zip(b)) == Some(b) }

  function Compress(g: Gzip, bytes: Bytes): (Bytes, bool) {
    if |bytes| < MIN_COMPRESS_BYTES then (bytes, false)
    else
      var zipped := g.zip(bytes);
      if |zipped| >= |bytes| then (bytes, false) else (zipped, true)
  }

  function Decompress(g: Gzip, bytes: Bytes, zipped: bool): Option<Bytes> { if zipped then g.unzip(bytes) else Some(bytes) }

  /** What the preview rebuilds from the bucket; None where it gives up. */
  function Preview(g: Gzip, open: Open, objects: map<string, Bytes>, prefix: string, baseIv: Bytes, aad: Bytes, zipped: bool): Option<Bytes> {
    if TrailerKey(prefix) !in objects then None
    else
      var packed := Decrypt(open, Sealed(baseIv, Fetched(objects, prefix, 0), objects[TrailerKey(prefix)]), aad);
      if packed.Err? then None else Decompress(g, packed.value, zipped)
  }

  /** Every non-empty file up to the maximum passes every check and reads back as the same bytes. */
  lemma FileComesBack(g: Gzip, seal: Seal, open: Open, objects: map<string, Bytes>, prefix: string, file: Bytes,
                      baseIv: Bytes, aad: Bytes, listing: seq<string>)
    requires 0 < |file| <= FILE_MAX_BYTES && ZipsBack(g) && AddsTag(seal) && |baseIv| == BASE_IV_LENGTH
    requires Ideal(open, seal, baseIv, Compress(g, file).0, aad)
    requires forall k | k in objects :: !Under(prefix, k)
    requires ListingOf(WithBlob(objects, prefix, Encrypt(seal, baseIv, Compress(g, file).0, aad)), prefix, listing)
    ensures var (packed, zipped) := Compress(g, file);
            var s := Encrypt(seal, baseIv, packed, aad);
            && (zipped <==> |file| >= 64 && |g.zip(file)| < |file|) && |packed| <= |file|
            && IntentAccepts(CipherBytes(s), |s.chunks| + 1)
            && (forall i | 0 <= i < |s.chunks| :: UploadStatus(CipherBytes(s), Decimal(i), |s.chunks[i]|).Stored?)
            && UploadStatus(CipherBytes(s), TRAILER_NAME, |s.trailer|).Stored?
            && CommitAccepts(SumSizes(WithBlob(objects, prefix, s), listing), CipherBytes(s))
            && Preview(g, open, WithBlob(objects, prefix, s), prefix, baseIv, aad, zipped) == Some(file)
  {
    hide WithChunks, Fetched, SplitChunks, Ideal, UploadStatus, Decrypt;
    var (packed, zipped) := Compress(g, file);
    var s := Encrypt(seal, baseIv, packed, aad);
    PassesEveryCheck(seal, baseIv, packed, aad);
    StatIsCipherBytes(objects, prefix, s, listing);
    forall j ensures ChunkKey(prefix, j) !in objects {
      assert Under(prefix, ChunkKey(prefix, j));
    }
    FetchesChunks(objects, prefix, s, 0);
    assert s.chunks[0..] == s.chunks;
    OnlyTheSealedOpens(open, seal, baseIv, packed, aad, s, aad);
  }
}
