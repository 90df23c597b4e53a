/** Firmware images (crates/radio-core/src/firmware.rs): their size, checksum, header and chunks. */
module FirmwareImage {
  import opened RadioTypes
  import opened Wrappers

  const MAX_LEN := 131072
  const HEADER_LEN := 32

  datatype FirmwareError = Empty | TooLarge(actualLen: nat) | InvalidChunkSize

  // ---------------------------------------------------------------- loading

  function Sum(bytes: seq<nat>): nat {
    if bytes == [] then 0 else Sum(bytes[..|bytes| - 1]) + bytes[|bytes| - 1]
  }

  predicate AreBytes(values: seq<nat>) {
    forall i | 0 <= i < |values| :: values[i] < 256
  }

  lemma {:induction false} SumBound(bytes: seq<nat>)
    requires AreBytes(bytes)
    ensures Sum(bytes) <= 255 * |bytes|
  {
    if bytes != [] {
      SumBound(bytes[..|bytes| - 1]);
    }
  }

  /** Checks an image and adds up its bytes in 32-bit wrapping arithmetic; the sum of an image that is
      accepted never wraps. */
  method FromBytes(bytes: seq<nat>) returns (byteSum: Result<nat, FirmwareError>)
    requires AreBytes(bytes)
    ensures byteSum == if bytes == [] then Err(Empty)
                       else if |bytes| > MAX_LEN then Err(TooLarge(|bytes|))
                       else Ok(Sum(bytes))
  {
    if bytes == [] {
      return Err(Empty);
    }
    if |bytes| > MAX_LEN {
      return Err(TooLarge(|bytes|));
    }
    var sum := 0;
    for i := 0 to |bytes|
      invariant sum == Sum(bytes[..i])
    {
      assert bytes[..i + 1][..i] == bytes[..i];
      SumBound(bytes[..i + 1]);
      sum := (sum + bytes[i]) % 0x1_0000_0000;
    }
    assert bytes[..|bytes|] == bytes;
    byteSum := Ok(sum);
  }

  // ---------------------------------------------------------------- the header

  function HasHeader(bytes: Bytes): bool {
    |bytes| >= 2 && (Le16(bytes[0], bytes[1]) & 0xfff0 == 0x9500 || Le16(bytes[0], bytes[1]) & 0xfff0 == 0x2100)
  }

  function PayloadOffset(bytes: Bytes): (n: nat)
    ensures n <= |bytes|
  {
    if HasHeader(bytes) && |bytes| > HEADER_LEN then HEADER_LEN else 0
  }

  function Payload(bytes: Bytes): Bytes {
    bytes[PayloadOffset(bytes)..]
  }

  lemma FamilyDown(low: bv8, high: bv8, family: bv8)
    requires ((high as bv16 << 8) | (low as bv16)) & 0xfff0 == family as bv16 << 8
    ensures high == family && low < 0x10
  {
  }

  lemma FamilyUp(low: bv8, family: bv8)
    requires low < 0x10
    ensures ((family as bv16 << 8) | (low as bv16)) & 0xfff0 == family as bv16 << 8
  {
  }

  /** A header is recognised by the second byte and the upper half of the first, and cut off only where
      something is left behind it; so an image that is not empty never has an empty payload. */
  lemma HeaderMeaning(bytes: Bytes)
    ensures HasHeader(bytes) <==> |bytes| >= 2 && (bytes[1] == 0x95 || bytes[1] == 0x21) && bytes[0] < 0x10
    ensures bytes != [] ==> Payload(bytes) != []
    ensures bytes == bytes[..|bytes| - |Payload(bytes)|] + Payload(bytes)
  {
    if HasHeader(bytes) {
      FamilyDown(bytes[0], bytes[1], if Le16(bytes[0], bytes[1]) & 0xfff0 == 0x9500 then 0x95 else 0x21);
    }
    if |bytes| >= 2 && (bytes[1] == 0x95 || bytes[1] == 0x21) && bytes[0] < 0x10 {
      FamilyUp(bytes[0], bytes[1]);
    }
  }

  // ---------------------------------------------------------------- chunks

  datatype Chunk = Chunk(offset: nat, bytes: Bytes)

  /** The chunks from `offset` on. */
  function ChunksFrom(bytes: Bytes, size: nat, offset: nat): seq<Chunk>
    requires size > 0
    decreases |bytes| - offset
  {
    if offset >= |bytes| then []
    else
      var end := if offset + size < |bytes| then offset + size else |bytes|;
      [Chunk(offset, bytes[offset..end])] + ChunksFrom(bytes, size, end)
  }

  /** An iterator over the chunks of an image. */
  class Chunks {
    const bytes: Bytes
    const size: nat
    var offset: nat

    constructor (bytes: Bytes, size: nat)
      requires size > 0
      ensures this.bytes == bytes && this.size == size && offset == 0
    {
      this.bytes, this.size, offset := bytes, size, 0;
    }

    method Next() returns (chunk: Option<Chunk>)
      requires size > 0
      modifies this
      ensures chunk == None <==> ChunksFrom(bytes, size, old(offset)) == []
      ensures chunk == None ==> offset == old(offset)
      ensures chunk.Some? ==> ChunksFrom(bytes, size, old(offset)) == [chunk.value] + ChunksFrom(bytes, size, offset)
    {
      if offset >= |bytes| {
        return None;
      }
      var start := offset;
      offset := if start + size < |bytes| then start + size else |bytes|;
      chunk := Some(Chunk(start, bytes[start..offset]));
    }
  }

  function AllChunks(bytes: Bytes, size: nat): Result<seq<Chunk>, FirmwareError> {
    if size == 0 then Err(InvalidChunkSize) else Ok(ChunksFrom(bytes, size, 0))
  }

  function Joined(chunks: seq<Chunk>): Bytes {
    if chunks == [] then [] else chunks[0].bytes + Joined(chunks[1..])
  }

  lemma {:induction false} ChunksJoin(bytes: Bytes, size: nat, offset: nat)
    requires size > 0 && offset <= |bytes|
    ensures Joined(ChunksFrom(bytes, size, offset)) == bytes[offset..]
    decreases |bytes| - offset
  {
    if offset < |bytes| {
      var end := if offset + size < |bytes| then offset + size else |bytes|;
      ChunksJoin(bytes, size, end);
      assert bytes[offset..end] + bytes[end..] == bytes[offset..];
    }
  }

  /** The i-th chunk is where chunks of `size` bytes put it, and all of them are full but the last. */
  predicate InPlace(chunks: seq<Chunk>, i: nat, offset: nat, size: nat)
    requires i < |chunks|
  {
    && chunks[i].offset == offset + i * size
    && if i < |chunks| - 1 then |chunks[i].bytes| == size else 0 < |chunks[i].bytes| <= size
  }

  predicate AllInPlace(chunks: seq<Chunk>, offset: nat, size: nat) {
    forall i | 0 <= i < |chunks| :: InPlace(chunks, i, offset, size)
  }

  lemma {:induction false} ChunkSizes(bytes: Bytes, size: nat, offset: nat)
    requires size > 0
    ensures AllInPlace(ChunksFrom(bytes, size, offset), offset, size)
    decreases |bytes| - offset
  {
    if offset < |bytes| {
      var end := if offset + size < |bytes| then offset + size else |bytes|;
      ChunkSizes(bytes, size, end);
      var c, rest := ChunksFrom(bytes, size, offset), ChunksFrom(bytes, size, end);
      forall i | 0 <= i < |c|
        ensures InPlace(c, i, offset, size)
      {
        if i > 0 {
          assert InPlace(rest, i - 1, end, size);
          assert i * size == size + (i - 1) * size;
        } else {
          assert i * size == 0;
        }
      }
    }
  }

  /** A chunk size of zero is refused; with any other the chunks are consecutive, all but the last have
      that size, and put together they are the image. */
  lemma ChunksRebuildImage(bytes: Bytes, size: nat)
    ensures AllChunks(bytes, size).Ok? <==> size > 0
    ensures size > 0 ==>
      var c := AllChunks(bytes, size).value;
      Joined(c) == bytes && AllInPlace(c, 0, size)
  {
    if size > 0 {
      ChunksJoin(bytes, size, 0);
      ChunkSizes(bytes, size, 0);
    }
  }
}
