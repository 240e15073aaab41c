/** The streaming chunker: it hashes, measures and describes every chunk FastCDC cuts. */
module Streaming {
  import opened Content
  import opened Manifests

  /** One item StreamCDC yields. */
  datatype Cut = Piece(offset: u64, data: Bytes) | ReadError

  datatype CoreError = Chunking | ChunkTooLarge(length: nat)

  datatype Chunk = Chunk(descriptor: Descriptor, data: Bytes)

  datatype Streamed = Exhausted | Yielded(chunk: Chunk) | Failed(error: CoreError)

  datatype Finished = Complete(manifest: Manifest) | Broken(error: CoreError)

  /** The pieces of a file as FastCDC offers them: offsets are running sums. */
  function Offered(pieces: seq<Bytes>): (cuts: seq<Cut>)
    requires |Concat(pieces)| < U64_LIMIT
    ensures |cuts| == |pieces|
  {
    if pieces == [] then []
    else
      var init := pieces[..|pieces| - 1];
      Offered(init) + [Piece(|Concat(init)|, pieces[|pieces| - 1])]
  }

  /** FastCDC's length contract: inner pieces lie in [minimum, maximum], the last in [1, maximum]. */
  predicate CutBy(profile: Profile, pieces: seq<Bytes>) {
    forall i :: 0 <= i < |pieces| ==>
      && 1 <= |pieces[i]| <= profile.Maximum()
      && (i + 1 < |pieces| ==> profile.Minimum() <= |pieces[i]|)
  }

  /** A cut the stream can describe: it was read, and its length fits the v1 manifest. */
  predicate Describable(cut: Cut) {
    cut.Piece? && |cut.data| < U32_LIMIT
  }

  function Fault(cut: Cut): (e: CoreError)
    requires !Describable(cut)
  {
    if cut.ReadError? then Chunking else CoreError.ChunkTooLarge(|cut.data|)
  }

  function Data(cut: Cut): (data: Bytes)
    requires Describable(cut)
  {
    cut.data
  }

  /** The first fault at or after position `start`. */
  predicate FirstFault(cuts: seq<Cut>, start: nat, i: nat) {
    start <= i < |cuts| && !Describable(cuts[i]) && forall j :: start <= j < i ==> Describable(cuts[j])
  }

  /** The cuts a stream accounts for: whatever it reports as an error is skipped. */
  function Kept(cuts: seq<Cut>): (kept: seq<Cut>)
    ensures forall i :: 0 <= i < |kept| ==> Describable(kept[i])
  {
    if cuts == [] then []
    else
      var init, last := Kept(cuts[..|cuts| - 1]), cuts[|cuts| - 1];
      if Describable(last) then init + [last] else init
  }

  lemma KeptSnoc(cuts: seq<Cut>, n: nat)
    requires n < |cuts|
    ensures Kept(cuts[..n + 1]) == Kept(cuts[..n]) + if Describable(cuts[n]) then [cuts[n]] else []
  {
    assert cuts[..n + 1][..n] == cuts[..n];
  }

  /** Nothing is skipped of a source without faults. */
  lemma {:induction false} KeptAll(cuts: seq<Cut>)
    requires forall i :: 0 <= i < |cuts| ==> Describable(cuts[i])
    ensures Kept(cuts) == cuts
  {
    if cuts != [] {
      KeptAll(cuts[..|cuts| - 1]);
      assert cuts == cuts[..|cuts| - 1] + [cuts[|cuts| - 1]];
    }
  }

  function Describe(h: Hashes, cut: Cut): (d: Descriptor)
    requires Describable(cut)
  {
    Descriptor(h.blake3(cut.data), cut.offset, |cut.data|)
  }

  function Descriptions(h: Hashes, cuts: seq<Cut>): (ds: seq<Descriptor>)
    requires forall i :: 0 <= i < |cuts| ==> Describable(cuts[i])
    ensures |ds| == |cuts|
    ensures forall i :: 0 <= i < |cuts| ==> ds[i] == Describe(h, cuts[i])
  {
    seq(|cuts|, i requires 0 <= i < |cuts| => Describe(h, cuts[i]))
  }

  function Payload(cuts: seq<Cut>): (pieces: seq<Bytes>)
    requires forall i :: 0 <= i < |cuts| ==> Describable(cuts[i])
    ensures |pieces| == |cuts|
    ensures forall i :: 0 <= i < |cuts| ==> pieces[i] == Data(cuts[i])
  {
    seq(|cuts|, i requires 0 <= i < |cuts| => Data(cuts[i]))
  }

  /** The manifest of a fully read, describable source. */
  function ManifestOf(h: Hashes, profile: Profile, cuts: seq<Cut>): (m: Manifest)
    requires forall i :: 0 <= i < |cuts| ==> Describable(cuts[i])
    requires |Concat(Payload(cuts))| < U64_LIMIT
  {
    var file := Concat(Payload(cuts));
    Manifest(profile, h.sha256(file), |file|, Descriptions(h, cuts))
  }

  /** `ChunkStream`: `read` is the ghost count of the cuts consumed so far, errors included. */
  class ChunkStream {
    const h: Hashes
    const profile: Profile
    ghost const source: seq<Cut>
    ghost var read: nat
    var inner: seq<Cut>
    var hashed: Bytes
    var descriptors: seq<Descriptor>
    var objectSize: u64

    /** Every describable cut before `read` was described, hashed and measured; the rest is still in `inner`. */
    ghost predicate Valid()
      reads this
    {
      && read <= |source|
      && inner == source[read..]
      && descriptors == Descriptions(h, Kept(source[..read]))
      && hashed == Concat(Payload(Kept(source[..read])))
      && objectSize == |hashed|
    }

    /** The whole source fits 64-bit arithmetic, as any real file does. */
    ghost predicate Fits() {
      forall n :: 0 <= n <= |source| ==> |Concat(Payload(Kept(source[..n])))| < U64_LIMIT
    }

    constructor (h: Hashes, profile: Profile, cuts: seq<Cut>)
      ensures Valid() && read == 0
      ensures this.h == h && this.profile == profile && source == cuts
    {
      this.h, this.profile, source := h, profile, cuts;
      read, inner, hashed, descriptors, objectSize := 0, cuts, [], [], 0;
    }

    /** `Iterator::next`: an unreadable or oversized cut is reported and leaves the accumulated
        manifest alone; any other cut is hashed, measured and described before it is handed out. The stream can
        go on after either. */
    method Next() returns (r: Streamed)
      requires Valid() && Fits()
      modifies this
      ensures Valid()
      ensures r.Exhausted? <==> old(read) == |source|
      ensures r.Exhausted? ==> read == old(read)
      ensures r.Yielded? ==>
        && read == old(read) + 1 && Describable(source[old(read)])
        && r.chunk == Chunk(Describe(h, source[old(read)]), source[old(read)].data)
      ensures r.Failed? ==>
        && read == old(read) + 1 && !Describable(source[old(read)]) && r.error == Fault(source[old(read)])
        && unchanged(`hashed, `descriptors, `objectSize)
        && (source[old(read)].ReadError? ==> r.error == Chunking)
        && (source[old(read)].Piece? ==>
              |source[old(read)].data| > 0xFFFF_FFFF && r.error == CoreError.ChunkTooLarge(|source[old(read)].data|))
    {
      if inner == [] {
        return Exhausted;
      }
      ConsumeOne(h, source, read);
      hide Kept, Payload, Descriptions, Concat;
      var cut := inner[0];
      inner := inner[1..];
      read := read + 1;
      if cut.ReadError? {
        return Failed(Chunking);
      }
      if |cut.data| >= U32_LIMIT {
        return Failed(CoreError.ChunkTooLarge(|cut.data|));
      }
      var length: u32 := |cut.data|;
      assert |Concat(Payload(Kept(source[..read])))| < U64_LIMIT;
      hashed := hashed + cut.data;
      objectSize := objectSize + length;
      var descriptor := Descriptor(h.blake3(cut.data), cut.offset, length);
      descriptors := descriptors + [descriptor];
      return Yielded(Chunk(descriptor, cut.data));
    }

    /** `finish`: drains what is left; the first bad cut still to come decides a failure. The manifest depends on
        the source alone, so neither the chunks taken nor the errors reported by earlier calls of `Next` matter. */
    method Finish() returns (r: Finished)
      requires Valid() && Fits()
      modifies this
      ensures r.Complete? <==> forall i :: old(read) <= i < |source| ==> Describable(source[i])
      ensures r.Complete? ==>
        |Concat(Payload(Kept(source)))| < U64_LIMIT && r.manifest == ManifestOf(h, profile, Kept(source))
      ensures r.Broken? ==> exists i: nat :: FirstFault(source, old(read), i) && r.error == Fault(source[i])
    {
      ghost var start := read;
      var more := true;
      while more
        invariant Valid() && start <= read
        invariant forall i :: start <= i < read ==> Describable(source[i])
        invariant !more ==> read == |source|
        decreases |source| - read, more
      {
        var item := Next();
        match item {
          case Exhausted => more := false;
          case Yielded(_) =>
          case Failed(e) =>
            assert FirstFault(source, start, read - 1);
            return Broken(e);
        }
      }
      assert source[..|source|] == source;
      return Complete(Manifest(profile, h.sha256(hashed), objectSize, descriptors));
    }
  }

  /** One more cut extends what was described and hashed, or leaves it alone. */
  lemma ConsumeOne(h: Hashes, source: seq<Cut>, read: nat)
    requires read < |source|
    ensures Describable(source[read]) ==>
      && (Descriptions(h, Kept(source[..read + 1]))
          == Descriptions(h, Kept(source[..read])) + [Describe(h, source[read])])
      && Concat(Payload(Kept(source[..read + 1]))) == Concat(Payload(Kept(source[..read]))) + source[read].data
    ensures !Describable(source[read]) ==> Kept(source[..read + 1]) == Kept(source[..read])
  {
    KeptSnoc(source, read);
    if Describable(source[read]) {
      PayloadSnoc(Kept(source[..read]), source[read]);
    }
  }

  lemma PayloadSnoc(kept: seq<Cut>, cut: Cut)
    requires Describable(cut) && forall i :: 0 <= i < |kept| ==> Describable(kept[i])
    ensures Concat(Payload(kept + [cut])) == Concat(Payload(kept)) + cut.data
  {
    assert Payload(kept + [cut]) == Payload(kept) + [cut.data];
    ConcatSnoc(Payload(kept), cut.data);
  }

  /** Producer meets validator: for every file of at most 100 GiB cut as FastCDC promises, the
      finished manifest is well formed and names the size and hash of the whole file. */
  lemma ProducedManifestIsWellFormed(h: Hashes, profile: Profile, pieces: seq<Bytes>)
    requires CutBy(profile, pieces) && |Concat(pieces)| <= MAX_OBJECT_SIZE
    ensures forall i :: 0 <= i < |pieces| ==> Describable(Offered(pieces)[i])
    ensures Payload(Offered(pieces)) == pieces
    ensures WellFormed(ManifestOf(h, profile, Offered(pieces)))
    ensures ManifestOf(h, profile, Offered(pieces)).size == |Concat(pieces)|
    ensures ManifestOf(h, profile, Offered(pieces)).oid == h.sha256(Concat(pieces))
  {
    OfferedShape(profile, pieces);
    var m := ManifestOf(h, profile, Offered(pieces));
    forall i | 0 <= i < |m.chunks| ensures ChunkInPlace(m, i) {
      DescribedInPlace(h, profile, pieces, i);
    }
    ExtentIsOffset(pieces, m.chunks, |pieces|);
    assert pieces[..|pieces|] == pieces && m.chunks[..|pieces|] == m.chunks;
  }

  lemma OfferedShape(profile: Profile, pieces: seq<Bytes>)
    requires CutBy(profile, pieces) && |Concat(pieces)| < U64_LIMIT
    ensures forall i :: 0 <= i < |pieces| ==> Describable(Offered(pieces)[i])
    ensures Payload(Offered(pieces)) == pieces
  {
    forall i | 0 <= i < |pieces|
      ensures Describable(Offered(pieces)[i]) && Data(Offered(pieces)[i]) == pieces[i]
    {
      OfferedAt(pieces, i);
    }
  }

  lemma DescribedInPlace(h: Hashes, profile: Profile, pieces: seq<Bytes>, i: nat)
    requires CutBy(profile, pieces) && |Concat(pieces)| <= MAX_OBJECT_SIZE && i < |pieces|
    requires forall j :: 0 <= j < |pieces| ==> Describable(Offered(pieces)[j])
    requires Payload(Offered(pieces)) == pieces
    ensures ChunkInPlace(ManifestOf(h, profile, Offered(pieces)), i)
  {
    var cuts := Offered(pieces);
    var chunks := Descriptions(h, cuts);
    OfferedAt(pieces, i);
    forall j | 0 <= j < |pieces| ensures chunks[j].length == |pieces[j]| {
      assert chunks[j] == Describe(h, cuts[j]) && Payload(cuts)[j] == Data(cuts[j]);
    }
    ExtentIsOffset(pieces, chunks, i);
  }

  /** Whole streams fit 64-bit arithmetic when the file is within the object limit. */
  lemma OfferedFits(profile: Profile, pieces: seq<Bytes>, n: nat)
    requires CutBy(profile, pieces) && |Concat(pieces)| < U64_LIMIT && n <= |pieces|
    ensures |Concat(Payload(Kept(Offered(pieces)[..n])))| < U64_LIMIT
  {
    OfferedShape(profile, pieces);
    KeptAll(Offered(pieces)[..n]);
    forall i | 0 <= i < n ensures Payload(Offered(pieces)[..n])[i] == pieces[i] {
      assert Payload(Offered(pieces))[i] == Data(Offered(pieces)[i]);
    }
    assert Payload(Offered(pieces)[..n]) == pieces[..n];
    PrefixWithin(pieces, n);
  }

  ghost function OffsetOf(pieces: seq<Bytes>, i: nat): (n: nat)
    requires i <= |pieces|
  {
    |Concat(pieces[..i])|
  }

  lemma PrefixWithin(pieces: seq<Bytes>, i: nat)
    requires i <= |pieces|
    ensures OffsetOf(pieces, i) <= |Concat(pieces)|
  {
    assert pieces == pieces[..i] + pieces[i..];
    ConcatJoin(pieces[..i], pieces[i..]);
  }

  lemma {:induction false} OfferedAt(pieces: seq<Bytes>, i: nat)
    requires i < |pieces| && |Concat(pieces)| < U64_LIMIT
    ensures OffsetOf(pieces, i) < U64_LIMIT
    ensures Offered(pieces)[i] == Piece(OffsetOf(pieces, i), pieces[i])
  {
    PrefixWithin(pieces, i);
    var init := pieces[..|pieces| - 1];
    PrefixWithin(pieces, |pieces| - 1);
    if i < |init| {
      assert init[..i] == pieces[..i];
      OfferedAt(init, i);
    }
  }

  lemma {:induction false} ExtentIsOffset(pieces: seq<Bytes>, chunks: seq<Descriptor>, n: nat)
    requires n <= |pieces| == |chunks|
    requires forall i :: 0 <= i < |pieces| ==> chunks[i].length == |pieces[i]|
    ensures Extent(chunks[..n]) == OffsetOf(pieces, n)
  {
    if n > 0 {
      ExtentIsOffset(pieces, chunks, n - 1);
      ExtentSnoc(chunks, n - 1);
      assert pieces[..n] == pieces[..n - 1] + [pieces[n - 1]];
      ConcatSnoc(pieces[..n - 1], pieces[n - 1]);
    }
  }

  // ------------------------------------------------------------------ manifests after a reported error

  /** A piece the stream reports as too large and skips. */
  predicate Oversized(cut: Cut) {
    cut.Piece? && |cut.data| >= U32_LIMIT
  }

  /** The bytes of all pieces, skipped ones included; a failed read yields none. */
  function Total(cuts: seq<Cut>): (n: nat) {
    if cuts == [] then 0
    else Total(cuts[..|cuts| - 1]) + match cuts[|cuts| - 1] case Piece(_, data) => |data| case ReadError => 0
  }

  /** The chunker's offsets count every piece it cut. */
  ghost predicate RunningOffsets(cuts: seq<Cut>) {
    forall i :: 0 <= i < |cuts| && cuts[i].Piece? ==> cuts[i].offset == Total(cuts[..i])
  }

  /** An oversized piece comes before one that is described. */
  ghost predicate SkipsInside(cuts: seq<Cut>) {
    exists i, j :: 0 <= i < j < |cuts| && Oversized(cuts[i]) && Describable(cuts[j])
  }

  ghost predicate SkipsNone(cuts: seq<Cut>) {
    forall i :: 0 <= i < |cuts| ==> !Oversized(cuts[i])
  }

  /** What is kept falls short of the total exactly when something was skipped. */
  lemma {:induction false} KeptFallsShort(cuts: seq<Cut>)
    ensures |Concat(Payload(Kept(cuts)))| <= Total(cuts)
    ensures |Concat(Payload(Kept(cuts)))| == Total(cuts) <==> SkipsNone(cuts)
  {
    if cuts == [] {
      assert Payload(Kept(cuts)) == [];
    } else {
      var n := |cuts| - 1;
      var init, last := cuts[..n], cuts[n];
      KeptFallsShort(init);
      assert SkipsNone(cuts) <==> SkipsNone(init) && !Oversized(last) by {
        assert forall i :: 0 <= i < n ==> init[i] == cuts[i];
      }
      if Describable(last) {
        PayloadSnoc(Kept(init), last);
      }
    }
  }

  /** Each kept piece starts where the kept pieces before it end. */
  ghost predicate OffsetsJoin(kept: seq<Cut>)
    requires forall i :: 0 <= i < |kept| ==> Describable(kept[i])
  {
    forall k :: 0 <= k < |kept| ==> Describable(kept[k]) && kept[k].offset == |Concat(Payload(kept[..k]))|
  }

  lemma OffsetsJoinSnoc(kept: seq<Cut>, last: Cut)
    requires Describable(last) && forall i :: 0 <= i < |kept| ==> Describable(kept[i])
    ensures OffsetsJoin(kept + [last]) <==> OffsetsJoin(kept) && last.offset == |Concat(Payload(kept))|
  {
    var longer := kept + [last];
    assert forall k :: 0 <= k <= |kept| ==> longer[..k] == kept[..k];
    assert kept[..|kept|] == kept && longer[|kept|] == last;
    assert forall k :: 0 <= k < |kept| ==> longer[k] == kept[k];
  }

  lemma {:induction false} OffsetsJoinUnlessSkipped(cuts: seq<Cut>)
    requires RunningOffsets(cuts)
    ensures OffsetsJoin(Kept(cuts)) <==> !SkipsInside(cuts)
  {
    if cuts != [] {
      var n := |cuts| - 1;
      var init, last := cuts[..n], cuts[n];
      assert RunningOffsets(init) by {
        assert forall i :: 0 <= i < n ==> init[i] == cuts[i] && init[..i] == cuts[..i];
      }
      OffsetsJoinUnlessSkipped(init);
      SkipsInsideSnoc(cuts);
      if Describable(last) {
        OffsetsJoinSnoc(Kept(init), last);
        KeptFallsShort(init);
      }
    }
  }

  lemma SkipsInsideSnoc(cuts: seq<Cut>)
    requires cuts != []
    ensures var n := |cuts| - 1;
      SkipsInside(cuts) <==> SkipsInside(cuts[..n]) || (Describable(cuts[n]) && !SkipsNone(cuts[..n]))
  {
    var n := |cuts| - 1;
    var init := cuts[..n];
    assert forall i :: 0 <= i < n ==> init[i] == cuts[i];
    if SkipsInside(cuts) {
      var i, j :| 0 <= i < j < |cuts| && Oversized(cuts[i]) && Describable(cuts[j]);
      assert Oversized(init[i]);
      if j < n {
        assert Describable(init[j]);
      }
    }
    if Describable(cuts[n]) && !SkipsNone(init) {
      var i :| 0 <= i < n && Oversized(init[i]);
      assert Oversized(cuts[i]);
    }
  }

  /** Described pieces of the profile's lengths make a well-formed manifest exactly when their offsets join. */
  lemma WellFormedWhenOffsetsJoin(h: Hashes, profile: Profile, kept: seq<Cut>)
    requires forall i :: 0 <= i < |kept| ==> Describable(kept[i])
    requires CutBy(profile, Payload(kept)) && |Concat(Payload(kept))| <= MAX_OBJECT_SIZE
    ensures WellFormed(ManifestOf(h, profile, kept)) <==> OffsetsJoin(kept)
  {
    var m := ManifestOf(h, profile, kept);
    KeptExtent(h, kept, |kept|);
    assert kept[..|kept|] == kept && m.chunks[..|kept|] == m.chunks;
    hide Concat, Extent, CutBy, Payload;
    assert WellFormed(m) <==> PrefixInPlace(m, |kept|);
    forall i | 0 <= i < |kept|
      ensures ChunkInPlace(m, i) <==> kept[i].offset == |Concat(Payload(kept[..i]))|
    {
      KeptChunkInPlace(h, profile, kept, i);
    }
    hide ChunkInPlace, ManifestOf;
  }

  /** What `finish` yields after `next` has reported errors, exactly: the manifest of the pieces that could be
      described. The validator accepts it unless an oversized piece was skipped before one that was described, and
      it covers everything that was cut exactly when no oversized piece was skipped at all. */
  lemma ManifestAfterErrors(h: Hashes, profile: Profile, cuts: seq<Cut>)
    requires RunningOffsets(cuts) && CutBy(profile, Payload(Kept(cuts)))
    requires |Concat(Payload(Kept(cuts)))| <= MAX_OBJECT_SIZE
    ensures WellFormed(ManifestOf(h, profile, Kept(cuts))) <==> !SkipsInside(cuts)
    ensures ManifestOf(h, profile, Kept(cuts)).size == Total(cuts) <==> SkipsNone(cuts)
  {
    OffsetsJoinUnlessSkipped(cuts);
    WellFormedWhenOffsetsJoin(h, profile, Kept(cuts));
    KeptFallsShort(cuts);
    assert ManifestOf(h, profile, Kept(cuts)).size == |Concat(Payload(Kept(cuts)))|;
    hide *;
  }

  /** Every piece has at most the profile's maximum, as FastCDC cuts them. */
  ghost predicate WithinMaximum(profile: Profile, cuts: seq<Cut>) {
    forall i :: 0 <= i < |cuts| && cuts[i].Piece? ==> |cuts[i].data| <= profile.Maximum()
  }

  /** Under FastCDC's bounds the only errors are failed reads, and they leave no trace: however many of them `next`
      reported, the manifest `finish` yields is accepted and covers everything that was cut. */
  lemma FailedReadsLeaveNoTrace(h: Hashes, profile: Profile, cuts: seq<Cut>)
    requires RunningOffsets(cuts) && WithinMaximum(profile, cuts) && CutBy(profile, Payload(Kept(cuts)))
    requires |Concat(Payload(Kept(cuts)))| <= MAX_OBJECT_SIZE
    ensures WellFormed(ManifestOf(h, profile, Kept(cuts)))
    ensures ManifestOf(h, profile, Kept(cuts)).size == Total(cuts)
  {
    ManifestAfterErrors(h, profile, cuts);
    assert SkipsNone(cuts) && !SkipsInside(cuts);
    hide *;
  }

  lemma KeptExtent(h: Hashes, kept: seq<Cut>, i: nat)
    requires i <= |kept| && forall k :: 0 <= k < |kept| ==> Describable(kept[k])
    ensures Extent(Descriptions(h, kept)[..i]) == |Concat(Payload(kept[..i]))|
  {
    var pieces, chunks := Payload(kept), Descriptions(h, kept);
    forall k | 0 <= k < |pieces| ensures chunks[k].length == |pieces[k]| {
      assert chunks[k] == Describe(h, kept[k]) && pieces[k] == Data(kept[k]);
    }
    ExtentIsOffset(pieces, chunks, i);
    assert pieces[..i] == Payload(kept[..i]);
  }

  lemma KeptChunkInPlace(h: Hashes, profile: Profile, kept: seq<Cut>, i: nat)
    requires i < |kept| && forall k :: 0 <= k < |kept| ==> Describable(kept[k])
    requires CutBy(profile, Payload(kept)) && |Concat(Payload(kept))| < U64_LIMIT
    ensures ChunkInPlace(ManifestOf(h, profile, kept), i) <==> kept[i].offset == |Concat(Payload(kept[..i]))|
  {
    KeptExtent(h, kept, i);
    var m := ManifestOf(h, profile, kept);
    assert m.chunks[i] == Describe(h, kept[i]) && Payload(kept)[i] == Data(kept[i]);
  }
}
