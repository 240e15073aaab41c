/** The manifest contract: an ordered, gap-free partition of one object into bounded chunks. */
module Manifests {
  import opened Content

  const U32_LIMIT := 0x1_0000_0000
  const U64_LIMIT := 0x1_0000_0000_0000_0000
  const I32_MAX := 0x7FFF_FFFF
  const I64_MAX := 0x7FFF_FFFF_FFFF_FFFF

  type u32 = x: int | 0 <= x < U32_LIMIT
  type u64 = x: int | 0 <= x < U64_LIMIT

  /** 100 GiB. */
  const MAX_OBJECT_SIZE: int := 100 * 1024 * 1024 * 1024

  const MAX_CHUNK_DESCRIPTORS: int := 204_800

  datatype Profile = FastCdcV1 {
    function Minimum(): (n: int) { 512 * 1024 }
    function Maximum(): (n: int) { 8 * 1024 * 1024 }
  }

  datatype Descriptor = Descriptor(id: ChunkId, offset: u64, length: u32)

  datatype Manifest = Manifest(profile: Profile, oid: Oid, size: u64, chunks: seq<Descriptor>)

  datatype ManifestError =
    | ObjectTooLarge(actual: int, maximum: int)
    | TooManyChunks(count: int, limit: int)
    | EmptyChunk(index: nat)
    | UnexpectedOffset(index: nat, expected: int, found: int)
    | ChunkTooLarge(index: nat, length: int, most: int)
    | ChunkTooSmall(index: nat, length: int, least: int)
    | SizeOverflow
    | SizeMismatch(declared: int, described: int)

  datatype Verdict = Accepted | Rejected(error: ManifestError)

  /** Total length of a run of chunks. */
  function Extent(chunks: seq<Descriptor>): (n: nat) {
    if chunks == [] then 0 else Extent(chunks[..|chunks| - 1]) + chunks[|chunks| - 1].length
  }

  /** Chunk `i` starts where the chunks before it end and its length is inside the profile bounds;
      only the final chunk may be shorter than the minimum. */
  predicate ChunkInPlace(m: Manifest, i: nat)
    requires i < |m.chunks|
  {
    var d := m.chunks[i];
    && d.length != 0
    && d.offset == Extent(m.chunks[..i])
    && d.length <= m.profile.Maximum()
    && (i + 1 < |m.chunks| ==> m.profile.Minimum() <= d.length)
  }

  predicate PrefixInPlace(m: Manifest, n: nat)
    requires n <= |m.chunks|
  {
    forall i :: 0 <= i < n ==> ChunkInPlace(m, i)
  }

  /** What an accepted manifest promises, said with running sums. */
  predicate WellFormed(m: Manifest) {
    && m.size <= MAX_OBJECT_SIZE
    && PrefixInPlace(m, |m.chunks|)
    && Extent(m.chunks) == m.size
  }

  /** The same promise said byte by byte, with no running sum: chunks are in order, stay inside the
      object, and every byte of the object belongs to exactly one chunk. */
  ghost predicate Covers(d: Descriptor, position: nat) {
    d.offset <= position < d.offset + d.length
  }

  ghost predicate CoveredOnce(m: Manifest, position: nat) {
    exists i {:trigger m.chunks[i]} ::
      && 0 <= i < |m.chunks|
      && Covers(m.chunks[i], position)
      && forall j :: 0 <= j < |m.chunks| && Covers(m.chunks[j], position) ==> j == i
  }

  ghost predicate BoundedChunk(m: Manifest, i: nat)
    requires i < |m.chunks|
  {
    var d := m.chunks[i];
    && 1 <= d.length <= m.profile.Maximum()
    && d.offset + d.length <= m.size
    && (i + 1 < |m.chunks| ==> m.profile.Minimum() <= d.length && d.offset < m.chunks[i + 1].offset)
  }

  ghost predicate Partitions(m: Manifest) {
    && m.size <= MAX_OBJECT_SIZE
    && (forall i :: 0 <= i < |m.chunks| ==> BoundedChunk(m, i))
    && (forall position :: 0 <= position < m.size ==> CoveredOnce(m, position))
  }

  /** `error` names the first broken invariant, in the order the validator looks at them. */
  ghost predicate FirstBroken(m: Manifest, error: ManifestError) {
    var n := |m.chunks|;
    match error
    case ObjectTooLarge(actual, maximum) =>
      actual == m.size > MAX_OBJECT_SIZE == maximum
    case TooManyChunks(count, limit) =>
      m.size <= MAX_OBJECT_SIZE && count == n > MAX_CHUNK_DESCRIPTORS == limit
    case EmptyChunk(i) =>
      FirstBrokenAt(m, i) && m.chunks[i].length == 0
    case UnexpectedOffset(i, expected, found) =>
      && FirstBrokenAt(m, i) && m.chunks[i].length != 0
      && expected == Extent(m.chunks[..i]) != found == m.chunks[i].offset
    case ChunkTooLarge(i, length, most) =>
      && FirstBrokenAt(m, i) && m.chunks[i].offset == Extent(m.chunks[..i])
      && length == m.chunks[i].length > m.profile.Maximum() == most
    case ChunkTooSmall(i, length, least) =>
      && FirstBrokenAt(m, i) && m.chunks[i].offset == Extent(m.chunks[..i])
      && i + 1 < n && 0 < length == m.chunks[i].length < m.profile.Minimum() == least
    case SizeOverflow =>
      false
    case SizeMismatch(declared, described) =>
      && m.size <= MAX_OBJECT_SIZE && n <= MAX_CHUNK_DESCRIPTORS && PrefixInPlace(m, n)
      && declared == m.size != described == Extent(m.chunks)
  }

  ghost predicate FirstBrokenAt(m: Manifest, i: nat) {
    && m.size <= MAX_OBJECT_SIZE && |m.chunks| <= MAX_CHUNK_DESCRIPTORS
    && i < |m.chunks| && PrefixInPlace(m, i) && !ChunkInPlace(m, i)
  }

  /** `ObjectManifest::validate`: one pass with a running offset and 64-bit checked addition. */
  method Validate(m: Manifest) returns (verdict: Verdict)
    ensures verdict == Accepted <==> WellFormed(m)
    ensures verdict.Rejected? ==> FirstBroken(m, verdict.error)
    ensures verdict != Rejected(SizeOverflow)
  {
    if m.size > MAX_OBJECT_SIZE {
      return Rejected(ObjectTooLarge(m.size, MAX_OBJECT_SIZE));
    }
    if |m.chunks| > MAX_CHUNK_DESCRIPTORS {
      if WellFormed(m) { DescriptorLimitFollows(m); }
      return Rejected(TooManyChunks(|m.chunks|, MAX_CHUNK_DESCRIPTORS));
    }
    assert PrefixInPlace(m, 0) && Extent(m.chunks[..0]) == 0 && m.chunks[..|m.chunks|] == m.chunks;
    hide Extent, WellFormed, PrefixInPlace, FirstBrokenAt;
    var minimum, maximum := m.profile.Minimum(), m.profile.Maximum();
    var expected: u64 := 0;
    for index := 0 to |m.chunks|
      invariant PrefixInPlace(m, index)
      invariant expected == Extent(m.chunks[..index])
      invariant expected <= index * maximum
    {
      var chunk := m.chunks[index];
      OneChunkFurther(m, index);
      if chunk.length == 0 {
        return Rejected(EmptyChunk(index));
      }
      if chunk.offset != expected {
        return Rejected(UnexpectedOffset(index, expected, chunk.offset));
      }
      if chunk.length > maximum {
        return Rejected(ChunkTooLarge(index, chunk.length, maximum));
      }
      if index + 1 < |m.chunks| && chunk.length < minimum {
        return Rejected(ChunkTooSmall(index, chunk.length, minimum));
      }
      ExtentSnoc(m.chunks, index);
      if expected + chunk.length >= U64_LIMIT {
        return Rejected(SizeOverflow);
      }
      expected := expected + chunk.length;
    }
    AllInPlace(m);
    if expected != m.size {
      return Rejected(SizeMismatch(m.size, expected));
    }
    return Accepted;
  }

  /** The next chunk either extends the part in place or is the first broken one. */
  lemma OneChunkFurther(m: Manifest, i: nat)
    requires m.size <= MAX_OBJECT_SIZE && |m.chunks| <= MAX_CHUNK_DESCRIPTORS
    requires i < |m.chunks| && PrefixInPlace(m, i)
    ensures ChunkInPlace(m, i) ==> PrefixInPlace(m, i + 1)
    ensures !ChunkInPlace(m, i) ==> FirstBrokenAt(m, i) && !WellFormed(m)
  {
    hide Extent, ChunkInPlace;
  }

  lemma AllInPlace(m: Manifest)
    requires m.size <= MAX_OBJECT_SIZE && PrefixInPlace(m, |m.chunks|)
    ensures WellFormed(m) <==> Extent(m.chunks) == m.size
  {
    hide Extent, PrefixInPlace;
  }

  lemma ExtentSnoc(chunks: seq<Descriptor>, i: nat)
    requires i < |chunks|
    ensures Extent(chunks[..i + 1]) == Extent(chunks[..i]) + chunks[i].length
  {
    assert chunks[..i + 1][..i] == chunks[..i];
  }

  /** Exactly one verdict fits a manifest, so the validator's answer is determined. */
  lemma FirstBrokenIsUnique(m: Manifest, one: ManifestError, other: ManifestError)
    requires FirstBroken(m, one) && FirstBroken(m, other)
    ensures one == other && !WellFormed(m)
  {
    if WellFormed(m) { DescriptorLimitFollows(m); }
    var i := BrokenIndex(m, one);
    var j := BrokenIndex(m, other);
    assert i < |m.chunks| ==> !ChunkInPlace(m, i);
    assert j < |m.chunks| ==> !ChunkInPlace(m, j);
  }

  /** Where the walk stopped; the chunk count when it did not stop at a chunk. */
  ghost function BrokenIndex(m: Manifest, error: ManifestError): (i: nat)
    requires FirstBroken(m, error)
    ensures i <= |m.chunks|
  {
    match error
    case EmptyChunk(i) => i
    case UnexpectedOffset(i, _, _) => i
    case ChunkTooLarge(i, _, _) => i
    case ChunkTooSmall(i, _, _) => i
    case _ => |m.chunks|
  }

  /** `n` chunks in place fill at least the minimum each, the last possibly excepted. */
  lemma {:induction false} ExtentAtLeast(m: Manifest, n: nat)
    requires n <= |m.chunks| && PrefixInPlace(m, n)
    ensures n < |m.chunks| ==> n * m.profile.Minimum() <= Extent(m.chunks[..n])
    ensures n == |m.chunks| > 0 ==> (n - 1) * m.profile.Minimum() + 1 <= Extent(m.chunks[..n])
  {
    if n > 0 {
      ExtentAtLeast(m, n - 1);
      ExtentSnoc(m.chunks, n - 1);
      assert ChunkInPlace(m, n - 1);
    }
  }

  /** The 204,800 descriptor limit is not an independent bound: it follows from the 100 GiB object
      limit and the 512 KiB chunk minimum. */
  lemma DescriptorLimitFollows(m: Manifest)
    requires WellFormed(m)
    ensures |m.chunks| <= MAX_CHUNK_DESCRIPTORS
  {
    ExtentAtLeast(m, |m.chunks|);
    assert m.chunks[..|m.chunks|] == m.chunks;
  }

  /** The smallest chunks, back to back. */
  function Smallest(n: nat): (chunks: seq<Descriptor>)
    requires n <= 204_800
    ensures |chunks| == n
  {
    seq(n, (i: nat) requires i < n => Descriptor(ChunkId(i), i * 524_288, 524_288))
  }

  lemma {:induction false} SmallestExtent(n: nat, i: nat)
    requires i <= n <= 204_800
    ensures Extent(Smallest(n)[..i]) == i * 524_288
  {
    if i > 0 {
      SmallestExtent(n, i - 1);
      ExtentSnoc(Smallest(n), i - 1);
    }
  }

  /** Both limits are attained at once: 204,800 chunks of 512 KiB make a well-formed manifest of 100 GiB. */
  lemma DescriptorLimitAttained() returns (m: Manifest)
    ensures WellFormed(m) && |m.chunks| == 204_800 && m.size == 107_374_182_400
  {
    m := Manifest(FastCdcV1, Oid(0), 107_374_182_400, Smallest(204_800));
    forall i | 0 <= i < |m.chunks| ensures ChunkInPlace(m, i) {
      SmallestExtent(204_800, i);
    }
    SmallestExtent(204_800, 204_800);
    assert m.chunks[..204_800] == m.chunks;
  }

  /** An object of one chunk is well formed exactly up to 8 MiB. */
  lemma OneChunkExactly(m: Manifest)
    requires |m.chunks| == 1 && m.chunks[0].offset == 0 && m.chunks[0].length == m.size
    ensures WellFormed(m) <==> 1 <= m.size <= 8_388_608
  {
    ExtentSnoc(m.chunks, 0);
    assert m.chunks[..1] == m.chunks;
    assert PrefixInPlace(m, 1) <==> ChunkInPlace(m, 0);
  }

  /** After acceptance every narrowing conversion of begin and publish succeeds. */
  lemma NarrowingsSucceed(m: Manifest, ordinal: nat)
    requires WellFormed(m) && ordinal < |m.chunks|
    ensures m.size <= I64_MAX
    ensures ordinal < U32_LIMIT && ordinal <= I32_MAX
    ensures m.chunks[ordinal].offset <= I64_MAX
    ensures 0 < m.chunks[ordinal].length <= I32_MAX
  {
    DescriptorLimitFollows(m);
    ExtentMonotone(m, ordinal, |m.chunks|);
    assert ChunkInPlace(m, ordinal);
    assert m.chunks[..|m.chunks|] == m.chunks;
  }

  lemma {:induction false} ExtentMonotone(m: Manifest, i: nat, j: nat)
    requires i <= j <= |m.chunks|
    ensures Extent(m.chunks[..i]) <= Extent(m.chunks[..j])
    ensures i < j ==> Extent(m.chunks[..i]) + m.chunks[i].length <= Extent(m.chunks[..j])
    decreases j - i
  {
    if i < j {
      ExtentSnoc(m.chunks, i);
      ExtentMonotone(m, i + 1, j);
    }
  }

  /** Running sums and the byte-by-byte partition are the same promise. */
  lemma WellFormedIffPartition(m: Manifest)
    ensures WellFormed(m) <==> Partitions(m)
  {
    if WellFormed(m) {
      WellFormedPartitions(m);
    }
    if Partitions(m) {
      PartitionWellFormed(m);
    }
  }

  lemma WellFormedPartitions(m: Manifest)
    requires WellFormed(m)
    ensures Partitions(m)
  {
    assert m.chunks[..|m.chunks|] == m.chunks;
    forall i | 0 <= i < |m.chunks| ensures BoundedChunk(m, i) {
      assert ChunkInPlace(m, i);
      ExtentMonotone(m, i, |m.chunks|);
      if i + 1 < |m.chunks| {
        assert ChunkInPlace(m, i + 1);
        ExtentSnoc(m.chunks, i);
      }
    }
    forall position | 0 <= position < m.size ensures CoveredOnce(m, position) {
      var i := Locate(m, position, |m.chunks|);
      assert Covers(m.chunks[i], position);
      forall j | 0 <= j < |m.chunks| && Covers(m.chunks[j], position) ensures j == i {
        assert ChunkInPlace(m, j) && ChunkInPlace(m, i);
        if i < j {
          ExtentMonotone(m, i, j);
        } else if j < i {
          ExtentMonotone(m, j, i);
        }
      }
    }
  }

  lemma {:induction false} Locate(m: Manifest, position: nat, n: nat) returns (i: nat)
    requires n <= |m.chunks| && PrefixInPlace(m, n) && position < Extent(m.chunks[..n])
    ensures i < n && Covers(m.chunks[i], position)
  {
    ExtentSnoc(m.chunks, n - 1);
    assert ChunkInPlace(m, n - 1);
    if position < Extent(m.chunks[..n - 1]) {
      i := Locate(m, position, n - 1);
    } else {
      i := n - 1;
    }
  }

  lemma PartitionWellFormed(m: Manifest)
    requires Partitions(m)
    ensures WellFormed(m)
  {
    PartitionOffsets(m, |m.chunks|);
    assert m.chunks[..|m.chunks|] == m.chunks;
    forall i | 0 <= i < |m.chunks| ensures ChunkInPlace(m, i) {
      PartitionOffsets(m, i + 1);
      assert BoundedChunk(m, i);
    }
    var n := |m.chunks|;
    var end := Extent(m.chunks);
    if n > 0 {
      assert BoundedChunk(m, n - 1) && ChunkInPlace(m, n - 1);
      ExtentSnoc(m.chunks, n - 1);
    }
    if end < m.size {
      assert CoveredOnce(m, end);
      var j :| 0 <= j < n && Covers(m.chunks[j], end);
      assert ChunkInPlace(m, j);
      ExtentMonotone(m, j, n);
    }
  }

  lemma {:induction false} PartitionOffsets(m: Manifest, n: nat)
    requires n <= |m.chunks| && Partitions(m)
    ensures forall i :: 0 <= i < n ==> m.chunks[i].offset == Extent(m.chunks[..i])
  {
    hide Partitions, Extent;
    if n > 0 {
      PartitionOffsets(m, n - 1);
      NoOverlapBefore(m, n - 1);
      NoGapBefore(m, n - 1);
    }
  }

  /** No chunk starts before the end of the one before it, or a byte would be in both. */
  lemma NoOverlapBefore(m: Manifest, i: nat)
    requires i < |m.chunks| && Partitions(m)
    requires forall k :: 0 <= k < i ==> m.chunks[k].offset == Extent(m.chunks[..k])
    ensures Extent(m.chunks[..i]) <= m.chunks[i].offset
  {
    if i > 0 {
      assert BoundedChunk(m, i) && BoundedChunk(m, i - 1);
      ExtentSnoc(m.chunks, i - 1);
      CoveringIsUnique(m, m.chunks[i].offset, i - 1, i);
      hide Partitions, Extent;
    }
  }

  /** No chunk starts after the end of those before it, or a byte in between would be in none. */
  lemma NoGapBefore(m: Manifest, i: nat)
    requires i < |m.chunks| && Partitions(m)
    requires forall k :: 0 <= k < i ==> m.chunks[k].offset == Extent(m.chunks[..k])
    ensures m.chunks[i].offset <= Extent(m.chunks[..i])
  {
    var start := Extent(m.chunks[..i]);
    if start < m.chunks[i].offset {
      assert BoundedChunk(m, i);
      assert CoveredOnce(m, start);
      var j :| 0 <= j < |m.chunks| && Covers(m.chunks[j], start);
      if j < i {
        ExtentMonotone(m, j, i);
      } else {
        OffsetsIncrease(m, i, j);
      }
    }
  }

  lemma CoveringIsUnique(m: Manifest, position: nat, i: nat, j: nat)
    requires i < |m.chunks| && j < |m.chunks| && Partitions(m)
    ensures position < m.size && Covers(m.chunks[i], position) && Covers(m.chunks[j], position) ==> i == j
  {
    assert position < m.size ==> CoveredOnce(m, position);
  }

  lemma {:induction false} OffsetsIncrease(m: Manifest, i: nat, j: nat)
    requires i <= j < |m.chunks| && Partitions(m)
    ensures m.chunks[i].offset <= m.chunks[j].offset
    decreases j - i
  {
    if i < j {
      assert BoundedChunk(m, i);
      OffsetsIncrease(m, i + 1, j);
    }
  }
}
