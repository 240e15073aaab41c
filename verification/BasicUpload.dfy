/** The basic upload path: the server itself cuts the file, registers every chunk to one session, stores it
    and publishes without reading anything back. */
module BasicUploads {
  import opened Content
  import opened Manifests
  import opened Streaming
  import opened Tables
  import opened Steps
  import opened Invariants
  import opened LiveBytes
  import opened Schedules
  import opened FinalizeRace
  import opened Servers
  import opened RoundTrips

  datatype BasicAnswer =
    | ObjectStored
    | TooLarge
    | WrongOid
    | SessionRefused(answer: Begun)
    | ChunkRefused(cause: StoreAnswer)
    | NotPublished

  /** The first `n` chunks are registered to the session and stored. */
  ghost predicate HeldUpTo(st: State, s: SessionId, m: Manifest, n: nat) {
    && n <= |m.chunks|
    && forall i :: 0 <= i < n ==> (s, m.chunks[i].id) in st.sessionChunks && m.chunks[i].id in st.store
  }

  lemma HeldNone(st: State, s: SessionId, m: Manifest)
    ensures HeldUpTo(st, s, m, 0)
  {
  }

  lemma HeldOneMore(st: State, r: State, s: SessionId, m: Manifest, n: nat)
    requires HeldUpTo(st, s, m, n) && n < |m.chunks|
    requires st.sessionChunks <= r.sessionChunks && Grown(st.store, r.store)
    requires (s, m.chunks[n].id) in r.sessionChunks && m.chunks[n].id in r.store
    ensures HeldUpTo(r, s, m, n + 1)
  {
  }

  lemma HeldIsRegistered(st: State, s: SessionId, m: Manifest)
    requires HeldUpTo(st, s, m, |m.chunks|) && s in st.sessions && st.sessions[s].manifest == m
    ensures AllRegistered(st, s) && Ids(m) <= st.store.Keys
  {
  }

  lemma FailedRegistrationKeepsInv(h: Hashes, st: State, s: SessionId, i: nat, data: Bytes)
    requires Inv(h, st) && st.draining == map[] && Uploadable(st, s, i, data)
    ensures Inv(h, Settled(RegisterTx(st, s, i, data)))
  {
    hide Inv;
    StepKeepsInv(h, st, Register(s, i, data));
    SettledKeepsInv(h, RegisterTx(st, s, i, data));
  }

  lemma StoringUploadable(h: Hashes, before: State, st: State, s: SessionId, m: Manifest, i: nat, data: Bytes)
    requires Storing(h, before, st, s, m) && i < |m.chunks| && |data| == m.chunks[i].length
    ensures Uploadable(st, s, i, data) && Inv(h, st) && st.draining == map[] && st.sessions[s].manifest == m
  {
    hide Inv;
  }

  /** What registering and storing the piece at its index leads to, whichever way it goes. */
  lemma ChunkOutcome(h: Hashes, before: State, st: State, s: SessionId, m: Manifest, pieces: seq<Bytes>, i: nat)
    requires Storing(h, before, st, s, m) && HeldUpTo(st, s, m, i) && DescribesPieces(h, m, pieces) && i < |pieces|
    ensures Uploadable(st, s, i, pieces[i]) && st.sessions[s].manifest == m && h.blake3(pieces[i]) == m.chunks[i].id
    ensures Inv(h, Settled(RegisterTx(st, s, i, pieces[i])))
    ensures SizesAgree(st, m) ==> SizeAgrees(st, m.chunks[i])
    ensures SizeAgrees(st, m.chunks[i]) ==>
      var r := AfterUpload(h, st, s, i, pieces[i]);
      && Inv(h, r) && Storing(h, before, r, s, m) && HeldUpTo(r, s, m, i + 1)
      && (InjectiveBlake3(h) && SizesAgree(st, m) ==> SizesAgree(r, m))
  {
    assert |pieces[i]| == m.chunks[i].length && h.blake3(pieces[i]) == m.chunks[i].id;
    assert SizesAgree(st, m) ==> SizeAgrees(st, m.chunks[i]);
    StoringUploadable(h, before, st, s, m, i, pieces[i]);
    hide Inv, Storing, HeldUpTo, SizeAgrees, InjectiveBlake3, SizesAgree, Uploadable, AfterUpload, RegisterTx;
    FailedRegistrationKeepsInv(h, st, s, i, pieces[i]);
    if SizeAgrees(st, m.chunks[i]) {
      var r := AfterUpload(h, st, s, i, pieces[i]);
      UploadKeepsStoring(h, before, st, s, m, i, pieces[i]);
      HeldOneMore(st, r, s, m, i);
      StoringInv(h, before, r, s, m);
      if InjectiveBlake3(h) && SizesAgree(st, m) {
        UploadKeepsSizes(h, st, s, m, pieces, i);
      }
    }
  }

  /** Register and store one chunk the stream handed out. */
  method StoreChunk(server: Server, ghost before: State, s: SessionId, m: Manifest, ghost pieces: seq<Bytes>,
                    index: nat, data: Bytes, up: bool)
    returns (r: StoreAnswer)
    requires Storing(server.h, before, server.View(), s, m) && HeldUpTo(server.View(), s, m, index)
    requires DescribesPieces(server.h, m, pieces) && index < |pieces| && data == pieces[index]
    modifies server`chunks, server`sessionChunks, server`store
    ensures server.Valid()
    ensures r.StoredOk? ==>
      Storing(server.h, before, server.View(), s, m) && HeldUpTo(server.View(), s, m, index + 1)
    ensures up && InjectiveBlake3(server.h) && SizesAgree(old(server.View()), m) ==>
      r.StoredOk? && SizesAgree(server.View(), m)
  {
    hide Inv, Storing, HeldUpTo, Settled, RegisterTx, PutEffect, SizeAgrees, InjectiveBlake3, DescribesPieces,
      SizesAgree;
    ChunkOutcome(server.h, before, server.View(), s, m, pieces, index);
    r := server.RegisterAndStoreChunk(s, index, data, up);
  }

  lemma StoringInv(h: Hashes, before: State, st: State, s: SessionId, m: Manifest)
    requires Storing(h, before, st, s, m)
    ensures Inv(h, st) && s in st.sessions && st.sessions[s].manifest == m && Live(st, s) && st.draining == map[]
    ensures st.objects == before.objects
  {
    hide Inv;
  }

  lemma PieceAt(h: Hashes, profile: Profile, pieces: seq<Bytes>, i: nat)
    requires CutBy(profile, pieces) && |Concat(pieces)| <= MAX_OBJECT_SIZE
    ensures var m := FileManifest(h, profile, pieces);
      && |Offered(pieces)| == |m.chunks| == |pieces|
      && (i < |pieces| ==>
            && Describable(Offered(pieces)[i]) && Offered(pieces)[i].data == pieces[i]
            && m.chunks[i].length == |pieces[i]| && m.chunks[i].id == h.blake3(pieces[i]))
  {
    ProducedManifestIsWellFormed(h, profile, pieces);
    if i < |pieces| {
      OfferedAt(pieces, i);
    }
  }

  /** No reason for a chunk to be refused: the provider answers, recorded sizes agree, digests determine bytes. */
  ghost predicate Smooth(h: Hashes, st: State, m: Manifest, up: nat -> bool) {
    InjectiveBlake3(h) && SizesAgree(st, m) && forall i :: up(i)
  }

  /** The second reading: every chunk of the stream is registered and stored, in order. */
  method StoreStream(server: Server, s: SessionId, m: Manifest, profile: Profile, pieces: seq<Bytes>, up: nat -> bool)
    returns (r: StoreAnswer)
    requires CutBy(profile, pieces) && |Concat(pieces)| <= MAX_OBJECT_SIZE
    requires m == FileManifest(server.h, profile, pieces)
    requires Storing(server.h, server.View(), server.View(), s, m)
    modifies server`chunks, server`sessionChunks, server`store
    ensures server.Valid()
    ensures r.StoredOk? ==>
      Storing(server.h, old(server.View()), server.View(), s, m) && HeldUpTo(server.View(), s, m, |m.chunks|)
    ensures Smooth(server.h, old(server.View()), m, up) ==> r.StoredOk?
  {
    ghost var before := server.View();
    var stream := OpenStream(server.h, profile, pieces);
    hide Positioned, Offered, Inv, Storing, Concat, WellFormed, DescribesPieces, CutBy, Payload, FileManifest,
      Describable, HeldUpTo, InjectiveBlake3, SizesAgree;
    PieceAt(server.h, profile, pieces, 0);
    StoringInv(server.h, before, before, s, m);
    HeldNone(before, s, m);
    for index := 0 to |pieces|
      invariant fresh(stream) && Positioned(stream, pieces, index)
      invariant Storing(server.h, before, server.View(), s, m) && HeldUpTo(server.View(), s, m, index)
      invariant Smooth(server.h, before, m, up) ==> SizesAgree(server.View(), m)
    {
      r := StoreNext(server, stream, before, s, m, profile, pieces, index, up(index));
      if !r.StoredOk? {
        return;
      }
    }
    StoringInv(server.h, before, server.View(), s, m);
    return StoredOk;
  }

  /** Takes the next piece from the stream and stores it. */
  method StoreNext(server: Server, stream: ChunkStream, ghost before: State, s: SessionId, m: Manifest,
                   ghost profile: Profile, ghost pieces: seq<Bytes>, index: nat, up: bool)
    returns (r: StoreAnswer)
    requires CutBy(profile, pieces) && |Concat(pieces)| <= MAX_OBJECT_SIZE && DescribesPieces(server.h, m, pieces)
    requires index < |pieces| && Positioned(stream, pieces, index)
    requires Storing(server.h, before, server.View(), s, m) && HeldUpTo(server.View(), s, m, index)
    modifies stream, server`chunks, server`sessionChunks, server`store
    ensures server.Valid() && Positioned(stream, pieces, index + 1)
    ensures r.StoredOk? ==>
      Storing(server.h, before, server.View(), s, m) && HeldUpTo(server.View(), s, m, index + 1)
    ensures up && InjectiveBlake3(server.h) && SizesAgree(old(server.View()), m) ==>
      r.StoredOk? && SizesAgree(server.View(), m)
  {
    hide Positioned, Offered, Inv, Storing, Concat, WellFormed, DescribesPieces, CutBy, Payload, Describable,
      HeldUpTo, InjectiveBlake3, SizesAgree;
    var data := NextPiece(stream, profile, pieces, index);
    r := StoreChunk(server, before, s, m, pieces, index, data, up);
  }

  /** The stream over the file has handed out `n` chunks. */
  ghost predicate Positioned(stream: ChunkStream, pieces: seq<Bytes>, n: nat)
    reads stream
  {
    && stream.Valid() && stream.Fits() && stream.read == n
    && |Concat(pieces)| < U64_LIMIT && stream.source == Offered(pieces)
  }

  method OpenStream(h: Hashes, profile: Profile, pieces: seq<Bytes>) returns (stream: ChunkStream)
    requires CutBy(profile, pieces) && |Concat(pieces)| <= MAX_OBJECT_SIZE
    ensures fresh(stream) && Positioned(stream, pieces, 0)
  {
    stream := NewStream(h, profile, pieces);
  }

  /** Every item of the stream is the next piece of the file. */
  method NextPiece(stream: ChunkStream, ghost profile: Profile, ghost pieces: seq<Bytes>, ghost n: nat)
    returns (data: Bytes)
    requires CutBy(profile, pieces) && |Concat(pieces)| <= MAX_OBJECT_SIZE
    requires n < |pieces| && Positioned(stream, pieces, n)
    modifies stream
    ensures Positioned(stream, pieces, n + 1) && data == pieces[n]
  {
    PieceAt(stream.h, profile, pieces, n);
    hide CutBy, Concat, FileManifest;
    var item := stream.Next();
    data := item.chunk.data;
  }

  /** `upload_basic`. Whatever is refused on the way the server stays consistent. Success means: the file hashes
      to the requested id, the object is live, and some session holds a registration of every chunk, each of them
      stored; so nothing has to be read back. Under digests that determine bytes a newly created object
      reconstructs, and its stored chunks are the pieces of the file. */
  method UploadBasic(server: Server, oid: Oid, drawn: SessionId, profile: Profile, pieces: seq<Bytes>, up: nat -> bool)
    returns (r: BasicAnswer, s: SessionId)
    requires server.Valid() && drawn !in server.issued
    requires CutBy(profile, pieces)
    modifies server
    ensures server.Valid()
    ensures r.TooLarge? <==> |Concat(pieces)| > MAX_OBJECT_SIZE
    ensures r.WrongOid? <==> |Concat(pieces)| <= MAX_OBJECT_SIZE && server.h.sha256(Concat(pieces)) != oid
    ensures r.TooLarge? || r.WrongOid? || r.SessionRefused? ==> server.View() == old(server.View())
    ensures r != NotPublished
    ensures |Concat(pieces)| <= MAX_OBJECT_SIZE && server.h.sha256(Concat(pieces)) == oid ==>
      var m := FileManifest(server.h, profile, pieces);
      NoConflict(old(server.View()), m) && Smooth(server.h, old(server.View()), m, up) ==> r.ObjectStored?
    ensures r.ObjectStored? ==>
      && |Concat(pieces)| <= MAX_OBJECT_SIZE && server.h.sha256(Concat(pieces)) == oid
      && oid in server.objects && s in server.sessions && server.sessions[s].state == Finalized
      && var m := FileManifest(server.h, profile, pieces);
         && server.sessions[s].manifest == m && AllRegistered(server.View(), s) && Ids(m) <= server.store.Keys
         && server.objects[oid] == Serving(old(server.objects), m)
         && (InjectiveBlake3(server.h) ==>
               Reconstructs(server.h, server.store, m) && Tables.Stored(server.store, m) == pieces)
  {
    s := drawn;
    if |Concat(pieces)| > MAX_OBJECT_SIZE {
      return TooLarge, s;
    }
    var m := CutFile(server.h, profile, pieces);
    assert m.oid == server.h.sha256(Concat(pieces)) && DescribesPieces(server.h, m, pieces);
    if m.oid != oid {
      return WrongOid, s;
    }
    hide Inv, WellFormed, Concat, CutBy, DescribesPieces, Storing, FileManifest, Reconstructs, HeldUpTo, BeginTx,
      PublishTx, AllRegistered, NoConflict, InjectiveBlake3;
    ghost var start := server.View();
    StartedIsStoring(server.h, start, drawn, m);
    if NoConflict(start, m) {
      BeginIsLive(start, drawn, m);
    }
    var begun := server.OpenSession(drawn, m);
    if !begun.Started? {
      return SessionRefused(begun), s;
    }
    s := begun.id;
    ghost var begunAt := server.View();
    var stored := StoreStream(server, s, m, profile, pieces, up);
    if !stored.StoredOk? {
      return ChunkRefused(stored), s;
    }
    ghost var held := server.View();
    StoringInv(server.h, begunAt, held, s, m);
    HeldIsRegistered(held, s, m);
    PublishedManifest(server.h, held, s, m);
    PublishClosesSession(server.h, held, s, m);
    if InjectiveBlake3(server.h) {
      CatalogueFacts(server.h, held, m);
      StoredIsFile(server.h, held.store, m, pieces);
    }
    var published := server.PublishManifest(s);
    if published.NotFound? || published.Rejected? {
      return NotPublished, s;
    }
    return ObjectStored, s;
  }

  lemma StartedIsStoring(h: Hashes, st: State, drawn: SessionId, m: Manifest)
    requires Inv(h, st) && st.draining == map[] && st == Settled(st) && drawn !in st.issued && WellFormed(m)
    ensures SessionsSound(st.sessions, st.issued)
    ensures var (r, answer) := BeginTx(st, drawn, m);
      && Inv(h, r) && r.objects == st.objects
      && (answer.Started? ==> Storing(h, r, r, answer.id, m))
      && (!answer.Started? ==> r == st)
  {
    StepKeepsInv(h, st, Begin(drawn, m));
    StartedIsLive(st, drawn, m);
    hide CatalogueSound, WellFormed, BeginTx, Live;
  }

  lemma StartedIsLive(st: State, drawn: SessionId, m: Manifest)
    ensures var (r, answer) := BeginTx(st, drawn, m);
      && (answer.Started? ==> Live(r, answer.id) && r.sessions[answer.id].manifest == m)
      && (!answer.Started? ==> r == st)
  {
    hide WellFormed;
  }

  lemma PublishClosesSession(h: Hashes, st: State, s: SessionId, m: Manifest)
    requires Inv(h, st) && Live(st, s) && st.sessions[s].manifest == m && AllRegistered(st, s)
    ensures var (r, answer) := PublishTx(st, s);
      && (answer == Created || answer == Existing)
      && s in r.sessions && r.sessions[s] == st.sessions[s].(state := Finalized)
      && r.sessionChunks == st.sessionChunks && AllRegistered(r, s)
  {
    SessionWellFormed(h, st, s);
    hide Inv, WellFormed, EnsureRows, AddReferences, ObjectRows;
  }
}
