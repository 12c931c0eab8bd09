/** Splitting, counter IVs and the count trailer, under an ideal AEAD (sections 2.1 and 2.2 of RFC 5116). */
module Sealing {
  import opened Wrappers
  import opened Rows
  import opened Bits

  type Bytes = seq<nat>

  const CHUNK_SIZE := 1_048_576
  const TRAILER_CHUNK_INDEX := 0xff_ff_ff_ff
  const U32 := 0x1_0000_0000
  const BASE_IV_LENGTH := 8
  const TAG_LENGTH := 16

  // ---- byte strings

  function Flatten(parts: seq<Bytes>): Bytes { if parts == [] then [] else parts[0] + Flatten(parts[1..]) }

  function TotalLength(parts: seq<Bytes>): nat { if parts == [] then 0 else |parts[0]| + TotalLength(parts[1..]) }

  /** The four big-endian bytes of a value modulo 2^32. */
  function U32be(value: nat): (b: Bytes)
    ensures |b| == 4
  {
    var v := value % U32;
    [v / 0x100_0000, v / 0x1_0000 % 0x100, v / 0x100 % 0x100, v % 0x100]
  }

  function ReadU32be(b: Bytes): nat
    requires |b| >= 4
  {
    b[0] * 0x100_0000 + b[1] * 0x1_0000 + b[2] * 0x100 + b[3]
  }

  lemma ReadsBack(value: nat)
    ensures ReadU32be(U32be(value)) == value % U32
  {
    var v := value % U32;
    assert v / 0x100 / 0x100 == v / 0x1_0000 && v / 0x1_0000 / 0x100 == v / 0x100_0000;
  }

  /** Four bytes, the most significant first. */
  lemma U32beIsBigEndian(value: nat)
    ensures AllBelow(U32be(value), 256) && BigEndian(U32be(value), 256) == value % U32
    ensures forall b: Bytes | |b| == 4 :: ReadU32be(b) == BigEndian(b, 256)
  {
    ReadsBack(value);
    forall b: Bytes | |b| == 4 ensures ReadU32be(b) == BigEndian(b, 256) {
      ReadIsBigEndian(b);
    }
  }

  lemma ReadIsBigEndian(b: Bytes)
    requires |b| == 4
    ensures ReadU32be(b) == BigEndian(b, 256)
  {
    assert b[..3][..2] == b[..2] && b[..2][..1] == b[..1] && b[..1][..0] == [];
    assert BigEndian(b[..1], 256) == b[0];
    assert BigEndian(b[..2], 256) == b[0] * 256 + b[1];
    assert BigEndian(b[..3], 256) == (b[0] * 256 + b[1]) * 256 + b[2];
  }

  lemma U32beInjective(a: nat, b: nat)
    ensures U32be(a) == U32be(b) <==> a % U32 == b % U32
  {
    ReadsBack(a);
    ReadsBack(b);
  }

  lemma {:induction false} FlattenLength(parts: seq<Bytes>)
    ensures |Flatten(parts)| == TotalLength(parts)
  {
    if parts != [] {
      FlattenLength(parts[1..]);
    }
  }

  lemma {:induction false} FlattenAppend(parts: seq<Bytes>, last: Bytes)
    ensures Flatten(parts + [last]) == Flatten(parts) + last
    ensures TotalLength(parts + [last]) == TotalLength(parts) + |last|
  {
    if parts == [] {
      assert parts + [last] == [last] && [last][1..] == [];
    } else {
      FlattenAppend(parts[1..], last);
      assert (parts + [last])[1..] == parts[1..] + [last];
    }
  }

  lemma {:induction false} PrefixFits(parts: seq<Bytes>, i: nat)
    requires i < |parts|
    ensures TotalLength(parts[..i]) + |parts[i]| <= TotalLength(parts)
    ensures Flatten(parts[..i + 1]) == Flatten(parts[..i]) + parts[i]
  {
    FlattenAppend(parts[..i], parts[i]);
    assert parts[..i + 1] == parts[..i] + [parts[i]];
    TotalOfPrefix(parts, i + 1);
  }

  lemma {:induction false} TotalOfPrefix(parts: seq<Bytes>, i: nat)
    requires i <= |parts|
    ensures TotalLength(parts[..i]) <= TotalLength(parts)
  {
    if i > 0 {
      TotalOfPrefix(parts[1..], i - 1);
      assert parts[..i][1..] == parts[1..][..i - 1];
    }
  }

  /** Writes each part at a moving offset into one buffer of the total length. */
  method ConcatBytes(parts: seq<Bytes>) returns (out: array<nat>)
    ensures fresh(out) && out[..] == Flatten(parts)
  {
    var total := 0;
    for i := 0 to |parts|
      invariant total == TotalLength(parts[..i])
    {
      FlattenAppend(parts[..i], parts[i]);
      assert parts[..i + 1] == parts[..i] + [parts[i]];
      total := total + |parts[i]|;
    }
    assert parts[..|parts|] == parts;
    out := new nat[total];
    var offset := 0;
    for i := 0 to |parts|
      invariant offset == TotalLength(parts[..i]) <= total
      invariant out[..offset] == Flatten(parts[..i])
    {
      PrefixFits(parts, i);
      FlattenLength(parts[..i]);
      FlattenLength(parts[..i + 1]);
      var part := parts[i];
      for j := 0 to |part|
        invariant out[..offset + j] == Flatten(parts[..i]) + part[..j]
      {
        out[offset + j] := part[j];
        assert out[..offset + j + 1] == out[..offset + j] + [part[j]];
      }
      assert part[..|part|] == part;
      offset := offset + |part|;
    }
    FlattenLength(parts);
  }

  // ---- associated data

  function KindName(kind: Kind): string {
    match kind
    case Text => "text"
    case Link => "link"
    case Image => "image"
    case File => "file"
  }

  function KindBytes(kind: Kind): (b: Bytes)
    ensures forall i | 0 <= i < |b| :: b[i] != 0
    ensures |b| == 4 || |b| == 5
  {
    Map(KindName(kind), (c: char) => c as nat)
  }

  /** `itemId` is the id's encoded bytes. */
  function EncodeAad(itemId: Bytes, kind: Kind, version: nat): Bytes {
    itemId + [0] + KindBytes(kind) + [0] + U32be(version)
  }

  ghost predicate ZeroFree(b: Bytes) { forall i | 0 <= i < |b| :: b[i] != 0 }

  /** What follows the last zero byte is determined, and so is what precedes it. */
  lemma {:induction false} LastZeroSplits(head1: Bytes, tail1: Bytes, head2: Bytes, tail2: Bytes)
    requires ZeroFree(tail1) && ZeroFree(tail2) && head1 + [0] + tail1 == head2 + [0] + tail2
    ensures head1 == head2 && tail1 == tail2
    decreases |tail1|
  {
    var x, y := head1 + [0] + tail1, head2 + [0] + tail2;
    assert x[|x| - 1] == y[|y| - 1];
    if tail1 == [] {
      assert tail2 == [];
      assert x[..|x| - 1] == head1 && y[..|y| - 1] == head2;
    } else {
      assert tail2 != [];
      var t1, t2 := tail1[..|tail1| - 1], tail2[..|tail2| - 1];
      assert x[..|x| - 1] == head1 + [0] + t1 && y[..|y| - 1] == head2 + [0] + t2;
      LastZeroSplits(head1, t1, head2, t2);
      assert tail1 == t1 + [tail1[|tail1| - 1]] && tail2 == t2 + [tail2[|tail2| - 1]];
    }
  }

  lemma KindsDiffer(kind1: Kind, kind2: Kind)
    ensures KindBytes(kind1) == KindBytes(kind2) <==> kind1 == kind2
  {
    var a, b := KindBytes(kind1), KindBytes(kind2);
    assert a[0] == KindName(kind1)[0] as nat && b[0] == KindName(kind2)[0] as nat;
    assert a == b ==> a[0] == b[0];
  }

  /** The encoding fixes id, kind and version, even for ids that contain zero bytes: it is read from the right. */
  lemma AadInjective(id1: Bytes, kind1: Kind, v1: nat, id2: Bytes, kind2: Kind, v2: nat)
    ensures EncodeAad(id1, kind1, v1) == EncodeAad(id2, kind2, v2) <==> id1 == id2 && kind1 == kind2 && v1 % U32 == v2 % U32
  {
    hide U32be, KindBytes;
    U32beInjective(v1, v2);
    KindsDiffer(kind1, kind2);
    var a, b := EncodeAad(id1, kind1, v1), EncodeAad(id2, kind2, v2);
    if a == b {
      assert a[|a| - 4..] == U32be(v1) && b[|b| - 4..] == U32be(v2);
      assert a[..|a| - 5] == id1 + [0] + KindBytes(kind1) && b[..|b| - 5] == id2 + [0] + KindBytes(kind2);
      LastZeroSplits(id1, KindBytes(kind1), id2, KindBytes(kind2));
    }
  }

  // ---- chunks

  function SplitChunks(data: Bytes): seq<Bytes> {
    if data == [] then []
    else if |data| <= CHUNK_SIZE then [data]
    else [data[..CHUNK_SIZE]] + SplitChunks(data[CHUNK_SIZE..])
  }

  lemma {:induction false} SplitThenFlatten(data: Bytes)
    ensures Flatten(SplitChunks(data)) == data
    ensures forall i | 0 <= i < |SplitChunks(data)| :: 0 < |SplitChunks(data)[i]| <= CHUNK_SIZE
    ensures |SplitChunks(data)| == (|data| + CHUNK_SIZE - 1) / CHUNK_SIZE
  {
    if |data| > CHUNK_SIZE {
      SplitThenFlatten(data[CHUNK_SIZE..]);
      assert data == data[..CHUNK_SIZE] + data[CHUNK_SIZE..];
    } else if data != [] {
      assert [data][1..] == [];
    }
  }

  method SplitIntoChunks(data: Bytes) returns (parts: seq<Bytes>)
    ensures parts == SplitChunks(data)
  {
    parts := [];
    if |data| == 0 {
      return;
    }
    var offset := 0;
    while offset < |data|
      invariant offset <= |data| ==> parts + SplitChunks(data[offset..]) == SplitChunks(data)
      invariant offset > |data| ==> parts == SplitChunks(data)
    {
      var end := Min(offset + CHUNK_SIZE, |data|);
      var rest := data[offset..];
      assert data[offset..end] == rest[..end - offset];
      if offset + CHUNK_SIZE < |data| {
        assert rest[CHUNK_SIZE..] == data[offset + CHUNK_SIZE..];
        assert parts + SplitChunks(rest) == parts + [data[offset..end]] + SplitChunks(data[offset + CHUNK_SIZE..]);
      } else {
        assert rest[..end - offset] == rest && SplitChunks(rest) == [rest];
        assert parts + [rest] + [] == parts + [rest];
      }
      parts := parts + [data[offset..end]];
      offset := offset + CHUNK_SIZE;
    }
    assert parts + [] == parts;
  }

  function ChunkIv(baseIv: Bytes, index: nat): Bytes { baseIv + U32be(index) }

  /** The IVs of n chunks and the trailer are pairwise different exactly when n is at most 2^32 - 1. */
  lemma IvsDifferIff(baseIv: Bytes, n: nat)
    ensures (forall i, j | 0 <= i < n && 0 <= j < n && i != j :: ChunkIv(baseIv, i) != ChunkIv(baseIv, j))
            && (forall i | 0 <= i < n :: ChunkIv(baseIv, i) != ChunkIv(baseIv, TRAILER_CHUNK_INDEX))
            <==> n < U32
  {
    if n < U32 {
      forall i, j | 0 <= i < U32 && 0 <= j < U32 && i != j ensures ChunkIv(baseIv, i) != ChunkIv(baseIv, j) {
        SlotsDiffer(baseIv, i, baseIv, j);
      }
    } else {
      assert ChunkIv(baseIv, TRAILER_CHUNK_INDEX) == ChunkIv(baseIv, TRAILER_CHUNK_INDEX);
    }
  }

  lemma SlotsDiffer(base1: Bytes, i: nat, base2: Bytes, j: nat)
    requires i < U32 && j < U32
    ensures ChunkIv(base1, i) == ChunkIv(base2, j) <==> base1 == base2 && i == j
  {
    U32beInjective(i, j);
    var a, b := ChunkIv(base1, i), ChunkIv(base2, j);
    if a == b {
      assert a[..|a| - 4] == base1 && b[..|b| - 4] == base2;
      assert a[|a| - 4..] == U32be(i) && b[|b| - 4..] == U32be(j);
    }
  }

  datatype Sealed = Sealed(baseIv: Bytes, chunks: seq<Bytes>, trailer: Bytes)

  /** The cipher under one key, from iv, associated data and plaintext; it adds a sixteen-byte tag. */
  type Seal = (Bytes, Bytes, Bytes) -> Bytes

  type Open = (Bytes, Bytes, Bytes) -> Option<Bytes>

  ghost predicate AddsTag(seal: Seal) { forall iv, aad, plain :: |seal(iv, aad, plain)| == |plain| + TAG_LENGTH }

  function SealedChunks(seal: Seal, baseIv: Bytes, parts: seq<Bytes>, aad: Bytes): (r: seq<Bytes>)
    ensures |r| == |parts| && forall i | 0 <= i < |parts| :: r[i] == seal(ChunkIv(baseIv, i), aad, parts[i])
  {
    seq(|parts|, i requires 0 <= i < |parts| => seal(ChunkIv(baseIv, i), aad, parts[i]))
  }

  function Encrypt(seal: Seal, baseIv: Bytes, plaintext: Bytes, aad: Bytes): Sealed {
    var parts := SplitChunks(plaintext);
    Sealed(baseIv, SealedChunks(seal, baseIv, parts, aad), seal(ChunkIv(baseIv, TRAILER_CHUNK_INDEX), aad, U32be(|parts|)))
  }

  method EncryptChunks(seal: Seal, baseIv: Bytes, plaintext: Bytes, aad: Bytes) returns (s: Sealed)
    requires |baseIv| == BASE_IV_LENGTH
    ensures s == Encrypt(seal, baseIv, plaintext, aad)
  {
    var parts := SplitIntoChunks(plaintext);
    var chunks: seq<Bytes> := [];
    for i := 0 to |parts|
      invariant chunks == SealedChunks(seal, baseIv, parts, aad)[..i]
    {
      chunks := chunks + [seal(ChunkIv(baseIv, i), aad, parts[i])];
    }
    var trailer := seal(ChunkIv(baseIv, TRAILER_CHUNK_INDEX), aad, U32be(|chunks|));
    return Sealed(baseIv, chunks, trailer);
  }

  datatype Failure = BadIv | Tamper | Truncate

  function OpenAll(open: Open, baseIv: Bytes, chunks: seq<Bytes>, aad: Bytes, from: nat): Option<seq<Bytes>>
    decreases |chunks|
  {
    if chunks == [] then Some([])
    else
      var part := open(ChunkIv(baseIv, from), aad, chunks[0]);
      if part.None? then None
      else
        var rest := OpenAll(open, baseIv, chunks[1..], aad, from + 1);
        if rest.None? then None else Some([part.value] + rest.value)
  }

  function Decrypt(open: Open, s: Sealed, aad: Bytes): Result<Bytes, Failure> {
    if |s.baseIv| != BASE_IV_LENGTH then Err(BadIv)
    else
      var count := open(ChunkIv(s.baseIv, TRAILER_CHUNK_INDEX), aad, s.trailer);
      if count.None? then Err(Tamper)
      else if |count.value| != 4 then Err(Truncate)
      else if |s.chunks| != ReadU32be(count.value) then Err(Truncate)
      else
        var parts := OpenAll(open, s.baseIv, s.chunks, aad, 0);
        if parts.None? then Err(Tamper) else Ok(Flatten(parts.value))
  }

  method DecryptChunks(open: Open, s: Sealed, aad: Bytes) returns (r: Result<Bytes, Failure>)
    ensures r == Decrypt(open, s, aad)
  {
    if |s.baseIv| != BASE_IV_LENGTH {
      return Err(BadIv);
    }
    var countBytes := open(ChunkIv(s.baseIv, TRAILER_CHUNK_INDEX), aad, s.trailer);
    if countBytes.None? {
      return Err(Tamper);
    }
    if |countBytes.value| != 4 {
      return Err(Truncate);
    }
    var count := ReadU32be(countBytes.value);
    if |s.chunks| != count {
      return Err(Truncate);
    }
    var parts: seq<Bytes> := [];
    ghost var all := OpenAll(open, s.baseIv, s.chunks, aad, 0);
    assert s.chunks[0..] == s.chunks && (all.Some? ==> parts + all.value == all.value);
    for i := 0 to |s.chunks|
      invariant var rest := OpenAll(open, s.baseIv, s.chunks[i..], aad, i);
                OpenAll(open, s.baseIv, s.chunks, aad, 0) == if rest.None? then None else Some(parts + rest.value)
    {
      var part := open(ChunkIv(s.baseIv, i), aad, s.chunks[i]);
      assert s.chunks[i..][1..] == s.chunks[i + 1..];
      if part.None? {
        return Err(Tamper);
      }
      ghost var tail := OpenAll(open, s.baseIv, s.chunks[i + 1..], aad, i + 1);
      assert tail.Some? ==> parts + ([part.value] + tail.value) == (parts + [part.value]) + tail.value;
      parts := parts + [part.value];
    }
    assert parts + [] == parts;
    var joined := ConcatBytes(parts);
    return Ok(joined[..]);
  }

  // ---- what exactly is sealed, and when opening fails

  /** Chunk i is the i-th MiB of the data. */
  lemma {:induction false} SplitAt(data: Bytes, i: nat)
    requires i < |SplitChunks(data)|
    ensures i * CHUNK_SIZE <= |data|
    ensures SplitChunks(data)[i] == data[i * CHUNK_SIZE..Min((i + 1) * CHUNK_SIZE, |data|)]
  {
    if i > 0 {
      var rest := data[CHUNK_SIZE..];
      SplitAt(rest, i - 1);
      assert rest[(i - 1) * CHUNK_SIZE..Min(i * CHUNK_SIZE, |rest|)] == data[i * CHUNK_SIZE..Min((i + 1) * CHUNK_SIZE, |data|)];
    }
  }

  /** Sealed are: each MiB in order under the base IV and its number, and the number of chunks under the last number of all. */
  lemma SealedExactly(seal: Seal, baseIv: Bytes, plaintext: Bytes, aad: Bytes)
    ensures var s, n := Encrypt(seal, baseIv, plaintext, aad), (|plaintext| + 1_048_575) / 1_048_576;
            && s.baseIv == baseIv && |s.chunks| == n
            && (forall i | 0 <= i < n :: s.chunks[i] == seal(baseIv + U32be(i), aad, Mib(plaintext, i)))
            && s.trailer == seal(baseIv + [255, 255, 255, 255], aad, U32be(n))
  {
    var s := Encrypt(seal, baseIv, plaintext, aad);
    SplitThenFlatten(plaintext);
    assert U32be(TRAILER_CHUNK_INDEX) == [255, 255, 255, 255];
    hide U32be, SplitChunks;
    forall i | 0 <= i < |s.chunks| ensures s.chunks[i] == seal(baseIv + U32be(i), aad, Mib(plaintext, i)) {
      SplitAt(plaintext, i);
    }
  }

  function Mib(data: Bytes, i: nat): Bytes {
    if i * 1_048_576 <= |data| then data[i * 1_048_576..Min((i + 1) * 1_048_576, |data|)] else []
  }

  lemma {:induction false} OpenAllIff(open: Open, baseIv: Bytes, chunks: seq<Bytes>, aad: Bytes, from: nat)
    ensures var parts := OpenAll(open, baseIv, chunks, aad, from);
            && (parts.Some? <==> forall i | 0 <= i < |chunks| :: open(ChunkIv(baseIv, from + i), aad, chunks[i]).Some?)
            && (parts.Some? ==>
                  |parts.value| == |chunks|
                  && forall i | 0 <= i < |chunks| :: open(ChunkIv(baseIv, from + i), aad, chunks[i]) == Some(parts.value[i]))
    decreases |chunks|
  {
    hide ChunkIv;
    if chunks != [] {
      OpenAllIff(open, baseIv, chunks[1..], aad, from + 1);
      assert forall i | 1 <= i < |chunks| :: chunks[i] == chunks[1..][i - 1] && from + i == from + 1 + (i - 1);
    }
  }

  /** The trailer opens to exactly the number of chunks. */
  predicate CountFits(open: Open, s: Sealed, aad: Bytes) {
    var count := open(s.baseIv + [255, 255, 255, 255], aad, s.trailer);
    count.Some? && |count.value| == 4 && BigEndian(count.value, 256) == |s.chunks|
  }

  predicate ChunkOpens(open: Open, s: Sealed, aad: Bytes, i: nat)
    requires i < |s.chunks|
  {
    open(s.baseIv + U32be(i), aad, s.chunks[i]).Some?
  }

  /**
   * With any cipher: a wrong IV length is told first, then a trailer that does not open, then one that counts otherwise,
   * then a chunk that does not open; else the opened chunks are joined in order.
   */
  lemma DecryptExactly(open: Open, s: Sealed, aad: Bytes)
    ensures var r, trailer := Decrypt(open, s, aad), open(s.baseIv + [255, 255, 255, 255], aad, s.trailer);
            && (r == Err(BadIv) <==> |s.baseIv| != 8)
            && (r == Err(Truncate) <==> |s.baseIv| == 8 && trailer.Some? && !CountFits(open, s, aad))
            && (r == Err(Tamper) <==>
                  |s.baseIv| == 8 && (trailer.None? || (CountFits(open, s, aad) && exists i | 0 <= i < |s.chunks| :: !ChunkOpens(open, s, aad, i))))
            && (r.Ok? ==> exists parts: seq<Bytes> ::
                  |parts| == |s.chunks| && (forall i | 0 <= i < |parts| :: open(s.baseIv + U32be(i), aad, s.chunks[i]) == Some(parts[i]))
                  && r.value == Flatten(parts))
  {
    assert U32be(TRAILER_CHUNK_INDEX) == [255, 255, 255, 255];
    var count := open(ChunkIv(s.baseIv, TRAILER_CHUNK_INDEX), aad, s.trailer);
    if count.Some? && |count.value| == 4 {
      ReadIsBigEndian(count.value);
    }
    OpenAllIff(open, s.baseIv, s.chunks, aad, 0);
    hide U32be, ReadU32be, OpenAll, BigEndian, Flatten;
    var parts := OpenAll(open, s.baseIv, s.chunks, aad, 0);
    assert forall i | 0 <= i < |s.chunks| :: ChunkOpens(open, s, aad, i) <==> open(ChunkIv(s.baseIv, 0 + i), aad, s.chunks[i]).Some?;
    if parts.Some? {
      assert forall i | 0 <= i < |s.chunks| :: open(s.baseIv + U32be(i), aad, s.chunks[i]) == Some(parts.value[i]);
    }
  }

  // ---- the ideal cipher: opening yields exactly what was sealed under the key

  datatype Entry = Entry(iv: Bytes, aad: Bytes, plain: Bytes, cipher: Bytes)

  /** Everything one `encryptChunks` call seals under its key. */
  ghost predicate WasSealed(seal: Seal, baseIv: Bytes, plaintext: Bytes, aad: Bytes, e: Entry) {
    var parts := SplitChunks(plaintext);
    && e.aad == aad && e.cipher == seal(e.iv, aad, e.plain)
    && ((e.iv == ChunkIv(baseIv, TRAILER_CHUNK_INDEX) && e.plain == U32be(|parts|))
        || exists i | 0 <= i < |parts| :: e.iv == ChunkIv(baseIv, i) && e.plain == parts[i])
  }

  ghost predicate Ideal(open: Open, seal: Seal, baseIv: Bytes, plaintext: Bytes, aad: Bytes) {
    forall iv, a, plain, cipher ::
      open(iv, a, cipher) == Some(plain) <==> WasSealed(seal, baseIv, plaintext, aad, Entry(iv, a, plain, cipher))
  }

  /** Under an ideal cipher, a chunk slot opens only to its own part, and the trailer slot only to the count. */
  lemma SlotOpens(open: Open, seal: Seal, baseIv: Bytes, plaintext: Bytes, aad: Bytes, iv: Bytes, slot: nat, a: Bytes, cipher: Bytes)
    requires Ideal(open, seal, baseIv, plaintext, aad) && |SplitChunks(plaintext)| < U32 && slot < U32
    ensures var parts := SplitChunks(plaintext);
            var plain := if slot < |parts| then parts[slot] else U32be(|parts|);
            var known := slot < |parts| || slot == TRAILER_CHUNK_INDEX;
            open(ChunkIv(iv, slot), a, cipher)
              == if iv == baseIv && a == aad && known && cipher == seal(ChunkIv(baseIv, slot), aad, plain) then Some(plain) else None
  {
    var parts := SplitChunks(plaintext);
    var answer := open(ChunkIv(iv, slot), a, cipher);
    var plain := if slot < |parts| then parts[slot] else U32be(|parts|);
    SlotsDiffer(iv, slot, baseIv, TRAILER_CHUNK_INDEX);
    forall i | 0 <= i < |parts| ensures ChunkIv(iv, slot) == ChunkIv(baseIv, i) <==> iv == baseIv && slot == i {
      SlotsDiffer(iv, slot, baseIv, i);
    }
    if answer.Some? {
      assert WasSealed(seal, baseIv, plaintext, aad, Entry(ChunkIv(iv, slot), a, answer.value, cipher));
    }
    if iv == baseIv && a == aad && (slot < |parts| || slot == TRAILER_CHUNK_INDEX) && cipher == seal(ChunkIv(baseIv, slot), aad, plain) {
      assert WasSealed(seal, baseIv, plaintext, aad, Entry(ChunkIv(iv, slot), a, plain, cipher));
    }
  }

  lemma {:induction false} PartsOpen(open: Open, seal: Seal, baseIv: Bytes, plaintext: Bytes, aad: Bytes, chunks: seq<Bytes>, from: nat)
    requires Ideal(open, seal, baseIv, plaintext, aad) && |SplitChunks(plaintext)| < U32
    requires from + |chunks| == |SplitChunks(plaintext)|
    ensures var parts := SplitChunks(plaintext);
            OpenAll(open, baseIv, chunks, aad, from)
              == if chunks == SealedChunks(seal, baseIv, parts, aad)[from..] then Some(parts[from..]) else None
    decreases |chunks|
  {
    hide SplitChunks, Ideal, ChunkIv;
    var parts := SplitChunks(plaintext);
    var good := SealedChunks(seal, baseIv, parts, aad);
    if chunks != [] {
      SlotOpens(open, seal, baseIv, plaintext, aad, baseIv, from, aad, chunks[0]);
      PartsOpen(open, seal, baseIv, plaintext, aad, chunks[1..], from + 1);
      assert good[from..] == [good[from]] + good[from + 1..] && parts[from..] == [parts[from]] + parts[from + 1..];
      assert chunks == [chunks[0]] + chunks[1..];
      assert good[from..][1..] == good[from + 1..] && good[from..][0] == good[from];
    } else {
      assert good[from..] == [] && parts[from..] == [];
    }
  }

  /** Decryption succeeds exactly on the sealed value itself under the same associated data, and gives back the plaintext. */
  lemma OnlyTheSealedOpens(open: Open, seal: Seal, baseIv: Bytes, plaintext: Bytes, aad: Bytes, s: Sealed, a: Bytes)
    requires Ideal(open, seal, baseIv, plaintext, aad) && |baseIv| == BASE_IV_LENGTH && |SplitChunks(plaintext)| < U32
    ensures Decrypt(open, s, a).Ok? <==> s == Encrypt(seal, baseIv, plaintext, aad) && a == aad
    ensures Decrypt(open, s, a).Ok? ==> Decrypt(open, s, a).value == plaintext
  {
    hide OpenAll, SplitChunks, Ideal, U32be, ReadU32be, Flatten, SealedChunks, ChunkIv;
    var parts := SplitChunks(plaintext);
    SlotOpens(open, seal, baseIv, plaintext, aad, s.baseIv, TRAILER_CHUNK_INDEX, a, s.trailer);
    ReadsBack(|parts|);
    if s.baseIv == baseIv && a == aad && |s.chunks| == |parts| {
      PartsOpen(open, seal, baseIv, plaintext, aad, s.chunks, 0);
      SplitThenFlatten(plaintext);
      assert SealedChunks(seal, baseIv, parts, aad)[0..] == SealedChunks(seal, baseIv, parts, aad) && parts[0..] == parts;
    }
  }

  /** In the item's own terms: the same base IV, chunk list and trailer, and the same item id and kind. */
  lemma OnlyTheSameItemOpens(open: Open, seal: Seal, baseIv: Bytes, plaintext: Bytes, id: Bytes, kind: Kind,
                             s: Sealed, id': Bytes, kind': Kind)
    requires Ideal(open, seal, baseIv, plaintext, EncodeAad(id, kind, 1)) && |baseIv| == BASE_IV_LENGTH && |SplitChunks(plaintext)| < U32
    ensures Decrypt(open, s, EncodeAad(id', kind', 1)).Ok?
            <==> s == Encrypt(seal, baseIv, plaintext, EncodeAad(id, kind, 1)) && id' == id && kind' == kind
  {
    OnlyTheSealedOpens(open, seal, baseIv, plaintext, EncodeAad(id, kind, 1), s, EncodeAad(id', kind', 1));
    AadInjective(id, kind, 1, id', kind', 1);
  }

  /** No two sealings of one call share an iv, so what opens is never ambiguous. */
  lemma IdealIsConsistent(seal: Seal, baseIv: Bytes, plaintext: Bytes, aad: Bytes, e: Entry, f: Entry)
    requires |SplitChunks(plaintext)| < U32
    requires WasSealed(seal, baseIv, plaintext, aad, e) && WasSealed(seal, baseIv, plaintext, aad, f) && e.iv == f.iv
    ensures e == f
  {
    var parts := SplitChunks(plaintext);
    forall i, j | 0 <= i < U32 && 0 <= j < U32 ensures ChunkIv(baseIv, i) == ChunkIv(baseIv, j) <==> i == j {
      SlotsDiffer(baseIv, i, baseIv, j);
    }
  }

  /** What an ideal cipher answers: the plaintext sealed with that iv, data and ciphertext, if there is one. */
  ghost function OpenOf(seal: Seal, baseIv: Bytes, plaintext: Bytes, aad: Bytes, iv: Bytes, a: Bytes, cipher: Bytes): (r: Option<Bytes>)
    ensures r.Some? ==> WasSealed(seal, baseIv, plaintext, aad, Entry(iv, a, r.value, cipher))
    ensures r.None? ==> forall plain :: !WasSealed(seal, baseIv, plaintext, aad, Entry(iv, a, plain, cipher))
  {
    if plain :| WasSealed(seal, baseIv, plaintext, aad, Entry(iv, a, plain, cipher)) then Some(plain) else None
  }

  ghost function IdealOpen(seal: Seal, baseIv: Bytes, plaintext: Bytes, aad: Bytes): Open {
    (iv, a, cipher) => OpenOf(seal, baseIv, plaintext, aad, iv, a, cipher)
  }

  /** The ideal assumption can be met, for every cipher and every file below the count at which ivs repeat. */
  lemma IdealExists(seal: Seal, baseIv: Bytes, plaintext: Bytes, aad: Bytes)
    requires |SplitChunks(plaintext)| < U32
    ensures Ideal(IdealOpen(seal, baseIv, plaintext, aad), seal, baseIv, plaintext, aad)
  {
    hide WasSealed, SplitChunks;
    var open := IdealOpen(seal, baseIv, plaintext, aad);
    forall iv, a, plain, cipher
      ensures open(iv, a, cipher) == Some(plain) <==> WasSealed(seal, baseIv, plaintext, aad, Entry(iv, a, plain, cipher)) {
      var r := OpenOf(seal, baseIv, plaintext, aad, iv, a, cipher);
      if WasSealed(seal, baseIv, plaintext, aad, Entry(iv, a, plain, cipher)) {
        IdealIsConsistent(seal, baseIv, plaintext, aad, Entry(iv, a, plain, cipher), Entry(iv, a, r.value, cipher));
      }
    }
  }
}
