/** End to end: a file goes up, by either protocol, and comes back. */
module RoundTrips {
  import opened Content
  import opened Manifests
  import opened Streaming
  import opened Tables
  import opened Steps
  import opened Invariants
  import opened LiveBytes
  import opened Schedules
  import opened Servers
  import Downloads
  import Uploads
  import Caches
  import CacheRaces

  // ------------------------------------------------------------------ what a manifest says of a file

  /** The manifest the chunker produces describes the pieces it cut. */
  lemma ProducedDescribes(h: Hashes, profile: Profile, pieces: seq<Bytes>)
    requires CutBy(profile, pieces) && |Concat(pieces)| <= MAX_OBJECT_SIZE
    requires forall i :: 0 <= i < |pieces| ==> Describable(Offered(pieces)[i])
    requires Payload(Offered(pieces)) == pieces
    ensures DescribesPieces(h, ManifestOf(h, profile, Offered(pieces)), pieces)
  {
    var cuts := Offered(pieces);
    var m := ManifestOf(h, profile, cuts);
    forall i | 0 <= i < |pieces|
      ensures m.chunks[i].id == h.blake3(pieces[i]) && m.chunks[i].length == |pieces[i]|
    {
      assert m.chunks[i] == Describe(h, cuts[i]) && Payload(cuts)[i] == Data(cuts[i]);
    }
  }

  /** The manifest of a file cut into `pieces`. */
  ghost function FileManifest(h: Hashes, profile: Profile, pieces: seq<Bytes>): (m: Manifest)
    requires CutBy(profile, pieces) && |Concat(pieces)| <= MAX_OBJECT_SIZE
    ensures WellFormed(m) && DescribesPieces(h, m, pieces)
  {
    ProducedManifestIsWellFormed(h, profile, pieces);
    ProducedDescribes(h, profile, pieces);
    ManifestOf(h, profile, Offered(pieces))
  }

  /** When digests determine bytes, a store that has every chunk of a described file has the file. */
  lemma StoredIsFile(h: Hashes, store: map<ChunkId, Bytes>, m: Manifest, pieces: seq<Bytes>)
    requires InjectiveBlake3(h) && DigestsMatch(h, store) && DescribesPieces(h, m, pieces)
    requires Ids(m) <= store.Keys
    ensures Reconstructs(h, store, m) && Tables.Stored(store, m) == pieces
  {
    forall i | 0 <= i < |m.chunks| ensures Tables.Stored(store, m)[i] == pieces[i] {
      assert m.chunks[i].id in Ids(m);
      assert h.blake3(store[m.chunks[i].id]) == h.blake3(pieces[i]);
    }
    assert Tables.Stored(store, m) == pieces;
  }

  /** Valid chunks of a reconstructible object are its stored bytes, wherever they were read. */
  lemma {:induction false} FetchedIsStored(h: Hashes, store: map<ChunkId, Bytes>, m: Manifest,
                                           got: seq<Downloads.Fetch>, n: nat)
    requires InjectiveBlake3(h) && Ids(m) <= store.Keys && Caches.Honest(h, m, got) && Caches.AllRead(got)
    requires forall i :: 0 <= i < |m.chunks| ==> h.blake3(Tables.Stored(store, m)[i]) == m.chunks[i].id
    requires n <= |m.chunks|
    ensures Downloads.Sequential(Caches.FetchOf(got), n) == Concat(Tables.Stored(store, m)[..n])
  {
    if n > 0 {
      FetchedIsStored(h, store, m, got, n - 1);
      var pieces := Tables.Stored(store, m);
      assert got[n - 1].bytes == pieces[n - 1] by {
        assert h.blake3(got[n - 1].bytes) == h.blake3(pieces[n - 1]) == m.chunks[n - 1].id;
      }
      hide InjectiveBlake3, Caches.Honest, Ids, Concat, Tables.Stored;
      assert pieces[..n] == pieces[..n - 1] + [pieces[n - 1]];
      ConcatSnoc(pieces[..n - 1], pieces[n - 1]);
    }
  }

  ghost predicate Rising(plan: seq<nat>) {
    forall j, k :: 0 <= j < k < |plan| ==> plan[j] < plan[k]
  }

  lemma {:induction false} MissingAscends(store: map<ChunkId, Bytes>, chunks: seq<Descriptor>, n: nat)
    requires n <= |chunks|
    ensures Rising(MissingFrom(store, chunks, n))
  {
    if n > 0 {
      MissingAscends(store, chunks, n - 1);
      var before, plan := MissingFrom(store, chunks, n - 1), MissingFrom(store, chunks, n);
      forall j, k | 0 <= j < k < |plan| ensures plan[j] < plan[k] {
        assert plan[j] == before[j] && before[j] in before;
      }
    }
  }

  /** Server meets client: whatever is stored, the plan a begin answers with passes the client's tests. */
  lemma PlanIsAccepted(store: map<ChunkId, Bytes>, chunks: seq<Descriptor>)
    ensures Uploads.AcceptsPlan(MissingFrom(store, chunks, |chunks|), |chunks|)
  {
    var plan := MissingFrom(store, chunks, |chunks|);
    MissingAscends(store, chunks, |chunks|);
    forall k | 0 <= k < |plan| ensures plan[k] < |chunks| {
      assert plan[k] in plan;
    }
    Uploads.PlanIsDistinct(plan, |chunks|);
  }

  // ------------------------------------------------------------------ storing chunks for a session

  ghost predicate SizesAgree(st: State, m: Manifest) {
    forall i :: 0 <= i < |m.chunks| ==> SizeAgrees(st, m.chunks[i])
  }

  ghost predicate Grown(before: map<ChunkId, Bytes>, after: map<ChunkId, Bytes>) {
    forall c :: c in before ==> c in after && after[c] == before[c]
  }

  /** Only chunk rows, registrations and stored bytes have changed, and bytes have only been added. */
  ghost predicate Storing(h: Hashes, before: State, st: State, s: SessionId, m: Manifest) {
    && Inv(h, st) && st.draining == map[] && st == Settled(st)
    && st == before.(chunks := st.chunks, sessionChunks := st.sessionChunks, store := st.store)
    && Live(st, s) && st.sessions[s].manifest == m
    && Grown(before.store, st.store)
  }

  ghost predicate Loading(h: Hashes, before: State, st: State, s: SessionId, m: Manifest) {
    Storing(h, before, st, s, m) && SizesAgree(st, m)
  }

  lemma SettledKeepsInv(h: Hashes, st: State)
    requires Inv(h, st)
    ensures Inv(h, Settled(st))
  {
    hide CatalogueSound, SizesBounded, HoldsSound, SessionsSound, DigestsMatch, EpochsPast;
  }

  ghost function AfterUpload(h: Hashes, st: State, s: SessionId, i: nat, data: Bytes): (r: State)
    requires Uploadable(st, s, i, data)
  {
    var c := st.sessions[s].manifest.chunks[i].id;
    Settled(PutEffect(h, RegisterTx(st, s, i, data), PendingPut(s, c, data)))
  }

  lemma UploadKeepsInv(h: Hashes, st: State, s: SessionId, i: nat, data: Bytes)
    requires Inv(h, st) && st.draining == map[] && Uploadable(st, s, i, data)
    requires SizeAgrees(st, st.sessions[s].manifest.chunks[i])
    ensures Inv(h, AfterUpload(h, st, s, i, data))
  {
    hide Inv;
    var c := st.sessions[s].manifest.chunks[i].id;
    var registered := RegisterTx(st, s, i, data);
    StepKeepsInv(h, st, Register(s, i, data));
    StepKeepsInv(h, registered, Put(PendingPut(s, c, data)));
    SettledKeepsInv(h, PutEffect(h, registered, PendingPut(s, c, data)));
  }

  lemma UploadKeepsSizes(h: Hashes, st: State, s: SessionId, m: Manifest, pieces: seq<Bytes>, i: nat)
    requires SizesAgree(st, m) && DescribesPieces(h, m, pieces) && InjectiveBlake3(h) && i < |pieces|
    requires Uploadable(st, s, i, pieces[i]) && st.sessions[s].manifest == m
    ensures SizesAgree(AfterUpload(h, st, s, i, pieces[i]), m)
  {
    assert SizeAgrees(st, m.chunks[i]);
    var r := AfterUpload(h, st, s, i, pieces[i]);
    forall j | 0 <= j < |m.chunks| ensures SizeAgrees(r, m.chunks[j]) {
      assert SizeAgrees(st, m.chunks[j]);
      if m.chunks[j].id == m.chunks[i].id {
        assert pieces[j] == pieces[i];
      }
    }
  }

  lemma UploadStores(h: Hashes, st: State, s: SessionId, i: nat, data: Bytes)
    requires Uploadable(st, s, i, data) && st == Settled(st)
    requires var d := st.sessions[s].manifest.chunks[i]; SizeAgrees(st, d) && h.blake3(data) == d.id
    ensures var c, r := st.sessions[s].manifest.chunks[i].id, AfterUpload(h, st, s, i, data);
      && r == st.(chunks := r.chunks, sessionChunks := st.sessionChunks + {(s, c)}, store := r.store)
      && Grown(st.store, r.store) && c in r.store
  {
  }

  /** Uploading a piece of the file at its index stores it, registers it and disturbs nothing else. */
  lemma UploadOne(h: Hashes, before: State, st: State, s: SessionId, m: Manifest, pieces: seq<Bytes>, i: nat)
    requires Loading(h, before, st, s, m) && DescribesPieces(h, m, pieces) && InjectiveBlake3(h) && i < |pieces|
    ensures Uploadable(st, s, i, pieces[i]) && SizeAgrees(st, m.chunks[i]) && h.blake3(pieces[i]) == m.chunks[i].id
    ensures var r := AfterUpload(h, st, s, i, pieces[i]);
      && Loading(h, before, r, s, m)
      && Grown(st.store, r.store) && m.chunks[i].id in r.store
      && st.sessionChunks <= r.sessionChunks && (s, m.chunks[i].id) in r.sessionChunks
  {
    assert SizeAgrees(st, m.chunks[i]);
    UploadKeepsStoring(h, before, st, s, m, i, pieces[i]);
    UploadKeepsSizes(h, st, s, m, pieces, i);
    hide Storing, SizesAgree, SizeAgrees, InjectiveBlake3, AfterUpload, DescribesPieces;
  }

  lemma UploadKeepsStoring(h: Hashes, before: State, st: State, s: SessionId, m: Manifest, i: nat, data: Bytes)
    requires Storing(h, before, st, s, m) && Uploadable(st, s, i, data)
    requires SizeAgrees(st, m.chunks[i]) && h.blake3(data) == m.chunks[i].id
    ensures var r := AfterUpload(h, st, s, i, data);
      && Storing(h, before, r, s, m)
      && Grown(st.store, r.store) && m.chunks[i].id in r.store
      && st.sessionChunks <= r.sessionChunks && (s, m.chunks[i].id) in r.sessionChunks
  {
    UploadKeepsInv(h, st, s, i, data);
    UploadStores(h, st, s, i, data);
    hide Inv, SizeAgrees, AfterUpload;
  }

  // ------------------------------------------------------------------ the CDC protocol

  /** No other live upload of the same object is described differently. */
  ghost predicate NoConflict(st: State, m: Manifest) {
    forall s :: IsOpenFor(st.sessions, s, m.oid) && st.now < st.sessions[s].expiresAt ==>
      st.sessions[s].manifest == m
  }

  /** A begin without conflict starts or resumes a live session for the manifest. */
  lemma BeginStartsLoading(h: Hashes, st: State, drawn: SessionId, m: Manifest)
    requires Inv(h, st) && st.draining == map[] && st == Settled(st) && drawn !in st.issued
    requires WellFormed(m) && NoConflict(st, m) && SizesAgree(st, m)
    ensures var (r, answer) := BeginTx(st, drawn, m);
      && answer.Started? && Loading(h, r, r, answer.id, m)
      && r == st.(sessions := r.sessions, issued := r.issued)
  {
    StepKeepsInv(h, st, Begin(drawn, m));
    BeginIsLive(st, drawn, m);
    hide Inv, WellFormed, SizeAgrees, BeginTx;
  }

  lemma BeginIsLive(st: State, drawn: SessionId, m: Manifest)
    requires WellFormed(m) && NoConflict(st, m)
    ensures var (r, answer) := BeginTx(st, drawn, m);
      answer.Started? && Live(r, answer.id) && r.sessions[answer.id].manifest == m
  {
    hide WellFormed;
    var live := ExpireStale(st.sessions, st.now, m.oid);
    match OpenSessionOf(live, m.oid) {
      case Some(s) => assert IsOpenFor(st.sessions, s, m.oid);
      case None =>
    }
  }

  /** One put of a piece of the file succeeds. */
  method PutChunk(server: Server, ghost before: State, s: SessionId, m: Manifest, pieces: seq<Bytes>, i: nat)
    requires Loading(server.h, before, server.View(), s, m) && i < |pieces|
    requires InjectiveBlake3(server.h) && DescribesPieces(server.h, m, pieces)
    modifies server`chunks, server`sessionChunks, server`store
    ensures Loading(server.h, before, server.View(), s, m)
    ensures Grown(old(server.store), server.store) && m.chunks[i].id in server.store
  {
    hide Loading, DescribesPieces, InjectiveBlake3, Settled, PutEffect, RegisterTx, Inv, WellFormed, SizeAgrees,
      Grown;
    UploadOne(server.h, before, server.View(), s, m, pieces, i);
    LoadingIsLive(server.h, before, server.View(), s, m);
    var answer := server.UploadCdcChunk(m.oid, s, i, pieces[i], true);
    assert answer.NoContent?;
  }

  /** The client's chunk puts, in any order and with any repeats, as long as every missing index occurs. */
  method PutChunks(server: Server, s: SessionId, m: Manifest, pieces: seq<Bytes>, puts: seq<nat>)
    requires Loading(server.h, server.View(), server.View(), s, m)
    requires InjectiveBlake3(server.h) && DescribesPieces(server.h, m, pieces)
    requires forall k :: 0 <= k < |puts| ==> puts[k] < |m.chunks|
    requires forall i :: i in MissingFrom(server.store, m.chunks, |m.chunks|) ==> i in puts
    modifies server`chunks, server`sessionChunks, server`store
    ensures Loading(server.h, old(server.View()), server.View(), s, m)
    ensures Ids(m) <= server.store.Keys
  {
    assert |pieces| == |m.chunks|;
    hide Loading, DescribesPieces, InjectiveBlake3, MissingFrom, Ids;
    ghost var before := server.View();
    for n := 0 to |puts|
      invariant Loading(server.h, before, server.View(), s, m)
      invariant Grown(before.store, server.store)
      invariant forall k :: 0 <= k < n ==> m.chunks[puts[k]].id in server.store
    {
      PutChunk(server, before, s, m, pieces, puts[n]);
    }
    NothingMissing(before.store, server.store, m, puts);
  }

  lemma NothingMissing(before: map<ChunkId, Bytes>, after: map<ChunkId, Bytes>, m: Manifest, puts: seq<nat>)
    requires forall k :: 0 <= k < |puts| ==> puts[k] < |m.chunks| && m.chunks[puts[k]].id in after
    requires forall i :: i in MissingFrom(before, m.chunks, |m.chunks|) ==> i in puts
    requires Grown(before, after)
    ensures Ids(m) <= after.Keys
  {
    forall c | c in Ids(m) ensures c in after {
      var i :| 0 <= i < |m.chunks| && m.chunks[i].id == c;
      if c !in before {
        assert i in MissingFrom(before, m.chunks, |m.chunks|);
        var k :| 0 <= k < |puts| && puts[k] == i;
      }
    }
  }

  lemma LoadingIsLive(h: Hashes, before: State, st: State, s: SessionId, m: Manifest)
    requires Loading(h, before, st, s, m)
    ensures IsOpenFor(st.sessions, s, m.oid) && st.now < st.sessions[s].expiresAt && st.sessions[s].manifest == m
    ensures Inv(h, st) && WellFormed(m)
    ensures Grown(before.store, st.store)
    ensures st == before.(chunks := st.chunks, sessionChunks := st.sessionChunks, store := st.store)
    ensures st.draining == map[]
  {
    hide CatalogueSound;
  }

  /** What the object table shows for `m.oid` after a publication of a session about `m`. */
  lemma PublishedManifest(h: Hashes, st: State, s: SessionId, m: Manifest)
    requires Inv(h, st) && st.draining == map[] && Live(st, s) && st.sessions[s].manifest == m
    ensures var r := PublishTx(st, s).0;
      && Inv(h, r) && r.store == st.store && m.oid in r.objects
      && r.objects[m.oid] == Serving(st.objects, m)
  {
    hide Inv, CatalogueSound, EnsureRows, AddReferences, ObjectRows, WellFormed;
    StepKeepsInv(h, st, Publish(s)) by { hide PublishTx; }
    SessionWellFormed(h, st, s);
  }

  lemma SessionWellFormed(h: Hashes, st: State, s: SessionId)
    requires Inv(h, st) && s in st.sessions
    ensures WellFormed(st.sessions[s].manifest)
  {
    hide CatalogueSound;
  }

  /** The manifest under which an object is served once `m` has been uploaded: the first to be published. */
  ghost function Serving(objects: ObjectTable, m: Manifest): (r: Manifest) {
    if m.oid in objects then objects[m.oid] else m
  }

  /** If the object is already live it is whole, and its id determines its bytes. */
  ghost predicate WholeIfLive(h: Hashes, objects: ObjectTable, store: map<ChunkId, Bytes>, m: Manifest) {
    m.oid in objects ==> Reconstructs(h, store, objects[m.oid]) && InjectiveSha256(h)
  }

  lemma GrowthKeepsWhole(h: Hashes, objects: ObjectTable, before: map<ChunkId, Bytes>,
                         after: map<ChunkId, Bytes>, m: Manifest)
    requires WholeIfLive(h, objects, before, m) && Grown(before, after)
    ensures WholeIfLive(h, objects, after, m)
  {
    if m.oid in objects {
      assert Ids(objects[m.oid]) <= before.Keys;
      ReconstructsAgain(h, before, after, objects[m.oid]);
    }
  }

  /** Both manifests of an object hold the same bytes. */
  lemma ServedIsFile(h: Hashes, objects: ObjectTable, store: map<ChunkId, Bytes>, m: Manifest, pieces: seq<Bytes>)
    requires InjectiveBlake3(h) && DigestsMatch(h, store) && DescribesPieces(h, m, pieces)
    requires Ids(m) <= store.Keys && WholeIfLive(h, objects, store, m)
    requires m.oid in objects ==> objects[m.oid].oid == m.oid
    ensures Reconstructs(h, store, m)
    ensures var served := Serving(objects, m);
      && served.oid == m.oid && Reconstructs(h, store, served)
      && Concat(Tables.Stored(store, served)) == Concat(pieces)
  {
    StoredIsFile(h, store, m, pieces);
    if m.oid in objects {
      var served := objects[m.oid];
      assert h.sha256(Concat(Tables.Stored(store, served))) == h.sha256(Concat(pieces));
    }
  }

  lemma CatalogueFacts(h: Hashes, st: State, m: Manifest)
    requires Inv(h, st)
    ensures DigestsMatch(h, st.store)
    ensures m.oid in st.objects ==> st.objects[m.oid].oid == m.oid && WellFormed(st.objects[m.oid])
  {
  }

  method Finalize(server: Server, s: SessionId, m: Manifest, pieces: seq<Bytes>)
    requires server.Valid() && Live(server.View(), s) && server.sessions[s].manifest == m
    requires InjectiveBlake3(server.h) && DescribesPieces(server.h, m, pieces)
    requires Ids(m) <= server.store.Keys && WholeIfLive(server.h, server.objects, server.store, m)
    modifies server
    ensures server.Valid() && m.oid in server.objects
    ensures var served := Serving(old(server.objects), m);
      && served.oid == m.oid && server.objects[m.oid] == served && Reconstructs(server.h, server.store, served)
      && Concat(Tables.Stored(server.store, served)) == Concat(pieces)
  {
    hide Inv, Reconstructs, InjectiveBlake3, DescribesPieces, WholeIfLive, PublishTx;
    CatalogueFacts(server.h, server.View(), m);
    ServedIsFile(server.h, server.objects, server.store, m, pieces);
    PublishedManifest(server.h, server.View(), s, m);
    var finalized := server.FinalizeCdc(m.oid, s);
    assert finalized.Done?;
  }

  /** What the client meets on its way to the server's chunk handler: for each chunk, how many attempts go wrong
      in a way worth retrying before one gets through, and what the disk does. */
  datatype Weather = Weather(losses: nat -> nat, loss: nat -> nat -> bool, disk: nat -> Caches.Disk)

  /** One attempt gets through, and cache files can be removed and written. */
  ghost predicate Fair(w: Weather) {
    forall i: nat :: w.losses(i) < Caches.ATTEMPTS && w.disk(i).canRemove && w.disk(i).canWrite
  }

  function Reply(answer: Downloaded): (r: Caches.Reply) {
    match answer
    case Body(bytes) => Caches.Answered(Some(bytes))
    case _ => Caches.StatusError
  }

  /** The attempts for one chunk: losses first, then the handler's answer. */
  function Attempts(w: Weather, i: nat, answer: Downloaded): (reply: nat -> Caches.Reply) {
    (k: nat) =>
      if k < w.losses(i) then (if w.loss(i)(k) then Caches.TransportError else Caches.RetryLater) else Reply(answer)
  }

  function Environs(w: Weather, answers: seq<Downloaded>): (env: Caches.Environment) {
    Caches.Environment(
      (i: nat) => Attempts(w, i, if i < |answers| then answers[i] else IndexNotFound),
      w.disk)
  }

  /** Retries see through the losses. */
  lemma RetriesGetThrough(w: Weather, i: nat, answer: Downloaded)
    requires w.losses(i) < Caches.ATTEMPTS && answer.Body?
    ensures Caches.Network(Attempts(w, i, answer)) == Some(answer.bytes)
  {
    Caches.DecidingIs(Attempts(w, i, answer), 0, w.losses(i));
  }

  /** The handler's answer for every chunk of an object. */
  method AskForChunks(server: Server, oid: Oid) returns (answers: seq<Downloaded>)
    requires oid in server.objects
    ensures |answers| == |server.objects[oid].chunks|
    ensures forall i: nat :: i < |answers| && Matches(server.h, server.store, server.objects[oid].chunks[i]) ==>
      answers[i] == Body(server.store[server.objects[oid].chunks[i].id])
  {
    answers := [];
    for i := 0 to |server.objects[oid].chunks|
      invariant |answers| == i
      invariant forall j: nat :: j < i && Matches(server.h, server.store, server.objects[oid].chunks[j]) ==>
        answers[j] == Body(server.store[server.objects[oid].chunks[j].id])
    {
      var answer := server.DownloadCdcChunk(oid, i);
      answers := answers + [answer];
    }
  }

  /** A reconstructible object is served chunk by chunk to any client that gets through. */
  lemma ServedIsKind(h: Hashes, store: map<ChunkId, Bytes>, m: Manifest, w: Weather, answers: seq<Downloaded>)
    requires Reconstructs(h, store, m) && Fair(w) && |answers| == |m.chunks|
    requires forall i: nat :: i < |answers| && Matches(h, store, m.chunks[i]) ==>
      answers[i] == Body(store[m.chunks[i].id])
    ensures Caches.Kind(h, m, Environs(w, answers))
  {
    ReadBackReconstructs(h, store, m);
    var env := Environs(w, answers);
    forall i: nat | i < |m.chunks|
      ensures Caches.Serves(h, m.chunks[i], env.net(i)) && env.disk(i).canRemove && env.disk(i).canWrite
    {
      assert Matches(h, store, m.chunks[i]);
      RetriesGetThrough(w, i, answers[i]);
    }
  }

  /** Each index of a manifest, once, in some order. */
  ghost predicate Permutes(order: seq<nat>, n: nat) {
    Caches.Orders(order, n) && forall i: nat :: i < n ==> i in order
  }

  lemma {:induction false} StoredLength(pieces: seq<Bytes>, chunks: seq<Descriptor>, n: nat)
    requires |pieces| == |chunks| && n <= |chunks|
    requires forall i :: 0 <= i < |chunks| ==> |pieces[i]| == chunks[i].length
    ensures |Concat(pieces[..n])| == Extent(chunks[..n])
  {
    if n > 0 {
      StoredLength(pieces, chunks, n - 1);
      ExtentSnoc(chunks, n - 1);
      assert pieces[..n] == pieces[..n - 1] + [pieces[n - 1]];
      ConcatSnoc(pieces[..n - 1], pieces[n - 1]);
    }
  }

  lemma ObjectSize(h: Hashes, store: map<ChunkId, Bytes>, m: Manifest)
    requires Reconstructs(h, store, m) && WellFormed(m)
    ensures |Concat(Tables.Stored(store, m))| == m.size
  {
    var pieces := Tables.Stored(store, m);
    StoredLength(pieces, m.chunks, |m.chunks|);
    assert pieces[..|pieces|] == pieces && m.chunks[..|m.chunks|] == m.chunks;
  }

  /** Whatever was read through a cache, if it is complete it is the object. */
  lemma ReadIsObject(h: Hashes, store: map<ChunkId, Bytes>, m: Manifest, got: seq<Downloads.Fetch>)
    requires Reconstructs(h, store, m) && InjectiveBlake3(h) && Caches.Honest(h, m, got) && Caches.AllRead(got)
    ensures Caches.Joined(got) == Concat(Tables.Stored(store, m))
  {
    FetchedIsStored(h, store, m, got, |m.chunks|);
    assert Tables.Stored(store, m)[..|m.chunks|] == Tables.Stored(store, m);
  }

  lemma ObjectHash(h: Hashes, store: map<ChunkId, Bytes>, m: Manifest)
    requires Reconstructs(h, store, m)
    ensures Ids(m) <= store.Keys && h.sha256(Concat(Tables.Stored(store, m))) == m.oid
  {
  }

  /** What the concurrent download of a file comes to under every interleaving of its workers, from a cache that
      holds `entries`: it never writes anything but the file; some interleaving aborts exactly when a corrupt cache
      file is crowded; and otherwise every interleaving that can go no further has written the file. */
  ghost predicate Concurrently(h: Hashes, job: CacheRaces.Job, entries: map<ChunkId, Bytes>, file: Bytes) {
    && (CacheRaces.NeverAborts(h, job, entries) <==> !CacheRaces.Crowded(h, job, entries))
    && forall run: CacheRaces.Shift :: CacheRaces.IsShift(h, job, CacheRaces.Begin(job, entries), run) ==>
         && (run.Last().pipe.phase == Downloads.Finished ==> run.Last().pipe.written == file)
         && (CacheRaces.Stopped(job, run.Last()) && !CacheRaces.Crowded(h, job, entries) ==>
               run.Last().pipe.phase == Downloads.Finished)
  }

  lemma ConcurrentDelivers(h: Hashes, store: map<ChunkId, Bytes>, job: CacheRaces.Job, entries: map<ChunkId, Bytes>)
    requires Reconstructs(h, store, job.m) && InjectiveBlake3(h) && CacheRaces.Served(h, job) && 1 <= job.window
    ensures Concurrently(h, job, entries, Concat(Tables.Stored(store, job.m)))
  {
    CacheRaces.ServedIsConsistent(h, job);
    CacheRaces.SafeExactlyWhenSpaced(h, job, entries);
    hide CacheRaces.NeverAborts, CacheRaces.Crowded, CacheRaces.Served, CacheRaces.Consistent, CacheRaces.Stopped;
    hide InjectiveBlake3, Reconstructs, Concat, Ids, Tables.Stored, CacheRaces.CanAct, CacheRaces.Acted;
    ObjectHash(h, store, job.m);
    forall run: CacheRaces.Shift | CacheRaces.IsShift(h, job, CacheRaces.Begin(job, entries), run)
      ensures run.Last().pipe.phase == Downloads.Finished ==>
                run.Last().pipe.written == Concat(Tables.Stored(store, job.m))
      ensures CacheRaces.Stopped(job, run.Last()) && !CacheRaces.Crowded(h, job, entries) ==>
                run.Last().pipe.phase == Downloads.Finished
    {
      CacheRaces.EveryShift(h, job, entries, run);
      if run.Last().pipe.phase == Downloads.Finished {
        FinishedIsObject(h, store, job.m, run.Last());
      }
    }
  }

  lemma FinishedIsObject(h: Hashes, store: map<ChunkId, Bytes>, m: Manifest, x: CacheRaces.Crew)
    requires Reconstructs(h, store, m) && InjectiveBlake3(h) && CacheRaces.Genuine(h, m, x.stages)
    requires Downloads.AllFetched(CacheRaces.AnswersOf(x.stages), |m.chunks|)
    ensures Downloads.Sequential(CacheRaces.AnswersOf(x.stages), |m.chunks|) == Concat(Tables.Stored(store, m))
  {
    var answers := CacheRaces.AnswersOf(x.stages);
    var got := seq(|m.chunks|, (i: nat) => answers(i));
    assert Caches.AllRead(got) && Caches.Honest(h, m, got) by {
      forall i: nat | i < |m.chunks| ensures got[i].Fetched? && Caches.ValidChunk(h, got[i].bytes, m.chunks[i]) {
        assert answers(i).Fetched?;
      }
    }
    ReadIsObject(h, store, m, got);
    CacheRaces.SequentialAgrees(answers, Caches.FetchOf(got), |m.chunks|);
  }

  /** The CDC download of a whole object: its chunk reads go through a cache, whatever that holds, and from there
      to the server's chunk handler. Performed one after another, in any order, they deliver the object; `job` is the
      download whose workers perform them concurrently. */
  method DownloadCdc(server: Server, cache: Caches.ChunkCache, oid: Oid, size: nat, window: nat, order: seq<nat>,
                     w: Weather)
    returns (r: Option<Bytes>, ghost job: CacheRaces.Job)
    requires server.Valid() && oid in server.objects && InjectiveBlake3(server.h) && cache.h == server.h
    requires var served := server.objects[oid];
      && Reconstructs(server.h, server.store, served) && size == |Concat(Tables.Stored(server.store, served))|
      && Permutes(order, |served.chunks|)
    requires 1 <= window <= 8 && Fair(w)
    modifies cache`entries
    ensures r == Some(Concat(Tables.Stored(server.store, server.objects[oid])))
    ensures job.m == server.objects[oid] && job.window == window && CacheRaces.Served(server.h, job)
    ensures Concurrently(server.h, job, old(cache.entries), Concat(Tables.Stored(server.store, server.objects[oid])))
  {
    var h, m := server.h, server.objects[oid];
    CatalogueKey(h, server.View(), oid);
    ObjectSize(h, server.store, m);
    ObjectHash(h, server.store, m);
    hide Inv, InjectiveBlake3, Caches.Honest, Caches.Kind, Caches.Traced, Caches.Warm, Caches.Joined, WellFormed,
      Environs, Fair, Matches, Reconstructs, Concat, Ids, Tables.Stored, Concurrently;
    var answers := AskForChunks(server, oid);
    ServedIsKind(h, server.store, m, w, answers);
    job := CacheRaces.Job(m, Environs(w, answers).net, window);
    KindIsServed(h, m, Environs(w, answers), window);
    ConcurrentDelivers(h, server.store, job, cache.entries);
    ghost var got;
    r, got := Caches.DownloadObject(cache, m, oid, size, window, order, Environs(w, answers));
    Caches.HonestSize(h, m, got);
    assert Caches.AllRead(got);
    ReadIsObject(h, server.store, m, got);
  }

  lemma KindIsServed(h: Hashes, m: Manifest, env: Caches.Environment, window: nat)
    requires Caches.Kind(h, m, env)
    ensures CacheRaces.Served(h, CacheRaces.Job(m, env.net, window))
  {
    hide Caches.Serves;
  }

  /** Both downloads of a whole object. */
  method DownloadBoth(server: Server, cache: Caches.ChunkCache, oid: Oid, file: Bytes, window: nat, order: seq<nat>,
                      w: Weather)
    returns (basic: Downloaded, cdc: Option<Bytes>, ghost job: CacheRaces.Job)
    requires server.Valid() && oid in server.objects && InjectiveBlake3(server.h) && cache.h == server.h
    requires var served := server.objects[oid];
      && Reconstructs(server.h, server.store, served) && Concat(Tables.Stored(server.store, served)) == file
      && Permutes(order, |served.chunks|)
    requires 1 <= window <= 8 && Fair(w)
    modifies cache`entries
    ensures basic == Body(file) && cdc == Some(file)
    ensures job.m == server.objects[oid] && job.window == window && CacheRaces.Served(server.h, job)
    ensures Concurrently(server.h, job, old(cache.entries), file)
  {
    hide Inv, InjectiveBlake3, Concat, Ids, Tables.Stored, Permutes, Fair, Concurrently;
    basic := server.DownloadBasic(oid);
    cdc, job := DownloadCdc(server, cache, oid, |file|, window, order, w);
  }

  lemma CatalogueKey(h: Hashes, st: State, oid: Oid)
    requires Inv(h, st) && oid in st.objects
    ensures st.objects[oid].oid == oid && WellFormed(st.objects[oid])
  {
  }

  /** End-to-end round trip. From any consistent state that records no other size for the file's chunks and has
      no conflicting live upload, with nothing drained and nothing expiring meanwhile: cut the file, begin, put
      the missing indexes in any order with any repeats, finalize. Everything succeeds, and both the basic and
      the CDC download return the file; the chunk reads of the latter go through a cache that may hold anything,
      one after another in any order, and reach the server's chunk handler after any losses that retries can
      absorb. `job` is the same download performed concurrently: under every interleaving of its workers it writes
      nothing but the file, and no interleaving aborts if and only if no corrupt cache file is crowded. */
  method RoundTrip(server: Server, cache: Caches.ChunkCache, profile: Profile, pieces: seq<Bytes>, drawn: SessionId,
                   puts: seq<nat>, window: nat, order: seq<nat>, w: Weather)
    returns (basic: Downloaded, cdc: Option<Bytes>, ghost job: CacheRaces.Job)
    requires CutBy(profile, pieces) && |Concat(pieces)| <= MAX_OBJECT_SIZE
    requires server.Valid() && drawn !in server.issued && InjectiveBlake3(server.h)
    requires var m := FileManifest(server.h, profile, pieces);
      && NoConflict(server.View(), m) && SizesAgree(server.View(), m)
      && WholeIfLive(server.h, server.objects, server.store, m)
      && (forall k :: 0 <= k < |puts| ==> puts[k] < |m.chunks|)
      && (forall i :: i in MissingFrom(server.store, m.chunks, |m.chunks|) ==> i in puts)
      && Permutes(order, |Serving(server.objects, m).chunks|)
    requires 1 <= window <= 8 && Fair(w) && cache.h == server.h
    modifies server, cache`entries
    ensures server.Valid()
    ensures basic == Body(Concat(pieces))
    ensures cdc == Some(Concat(pieces))
    ensures job.m == Serving(old(server.objects), FileManifest(server.h, profile, pieces)) && job.window == window
    ensures CacheRaces.Served(server.h, job)
    ensures Concurrently(server.h, job, old(cache.entries), Concat(pieces))
  {
    var m := CutFile(server.h, profile, pieces);
    ghost var start := server.View();
    BeginStartsLoading(server.h, start, drawn, m);
    hide Concurrently, Inv, InjectiveBlake3, DescribesPieces, WholeIfLive, Permutes, Fair, Loading, WellFormed,
      SizesAgree, NoConflict, Reconstructs, BeginTx, CutBy, Describable, Concat, Payload;
    var plan := server.BeginCdc(m.oid, drawn, m);
    PutChunks(server, plan.id, m, pieces, puts);
    LoadingIsLive(server.h, server.View(), server.View(), plan.id, m);
    GrowthKeepsWhole(server.h, server.objects, start.store, server.store, m);
    Finalize(server, plan.id, m, pieces);
    basic, cdc, job := DownloadBoth(server, cache, m.oid, Concat(pieces), window, order, w);
  }

  /** A stream over a file cut by the chunker. */
  method NewStream(h: Hashes, profile: Profile, pieces: seq<Bytes>) returns (stream: ChunkStream)
    requires CutBy(profile, pieces) && |Concat(pieces)| <= MAX_OBJECT_SIZE
    ensures fresh(stream) && stream.Valid() && stream.Fits() && stream.read == 0
    ensures stream.h == h && stream.profile == profile && stream.source == Offered(pieces)
  {
    stream := new ChunkStream(h, profile, Offered(pieces));
    forall n | 0 <= n <= |pieces| ensures |Concat(Payload(Kept(Offered(pieces)[..n])))| < U64_LIMIT {
      OfferedFits(profile, pieces, n);
    }
  }

  /** The first reading of the file. */
  method CutFile(h: Hashes, profile: Profile, pieces: seq<Bytes>) returns (m: Manifest)
    requires CutBy(profile, pieces) && |Concat(pieces)| <= MAX_OBJECT_SIZE
    ensures m == FileManifest(h, profile, pieces)
  {
    ProducedManifestIsWellFormed(h, profile, pieces);
    KeptAll(Offered(pieces));
    var stream := NewStream(h, profile, pieces);
    hide WellFormed, CutBy;
    var finished := stream.Finish();
    m := finished.manifest;
  }

  // ------------------------------------------------------------------ with other requests in between

  /** The chunk was stored when the plan was made, or has been put since. */
  ghost predicate Supplied(h: Hashes, run: Run, b: nat, n: nat, c: ChunkId)
    requires b <= n <= |run.steps| < |run.states|
  {
    || c in run.states[b].store
    || exists t, s :: b <= t < n && PutAt(h, run, t, s, c)
  }

  /** No drain deletes the chunk's bytes from step `b` up to step `n`. */
  ghost predicate Undrained(run: Run, b: nat, n: nat, c: ChunkId)
    requires b <= n <= |run.steps|
  {
    forall t :: b <= t < n ==> run.steps[t] != DrainDelete(c)
  }

  lemma StepKeepsUndrained(h: Hashes, st: State, step: Step, c: ChunkId)
    requires Enabled(st, step) && step != DrainDelete(c)
    ensures c in st.store ==> c in Apply(h, st, step).store
    ensures step.Put? && step.put.chunk == c && h.blake3(step.put.data) == c ==> c in Apply(h, st, step).store
  {
    hide BeginTx, RegisterTx, PublishTx, CollectTx, ReclaimTx, StageTx, SubmitTx, Candidates;
    Frame(h, st, step);
  }

  lemma {:induction false} SuppliedIsStored(h: Hashes, run: Run, b: nat, n: nat, c: ChunkId)
    requires IsRun(h, run) && b <= n <= |run.steps| && Supplied(h, run, b, n, c) && Undrained(run, b, n, c)
    ensures c in run.states[n].store
  {
    hide Enabled, Apply;
    if b < n {
      var st, step := run.states[n - 1], run.steps[n - 1];
      assert Next(h, st, step, run.states[n]);
      StepKeepsUndrained(h, st, step, c);
      if Supplied(h, run, b, n - 1, c) {
        SuppliedIsStored(h, run, b, n - 1, c);
      } else {
        var t, s :| b <= t < n && PutAt(h, run, t, s, c);
        assert t == n - 1;
      }
    }
  }

  /** Step `n` is a publication that creates the object under manifest `m`. */
  ghost predicate PublishesAt(run: Run, n: nat, m: Manifest)
    requires n < |run.steps| < |run.states|
  {
    && run.steps[n].Publish? && run.steps[n].session in run.states[n].sessions
    && Creates(run.states[n], run.steps[n].session)
    && run.states[n].sessions[run.steps[n].session].manifest == m
  }

  /** The round trip with any other requests interleaved. If at state `b` every chunk of the file was stored or
      was put, by anyone, before state `n`, and no drain deleted its bytes meanwhile, then at `n` the store
      reconstructs the file; and if the publication at `n` creates the object, every later state in which the
      object is still live, drains and collections of other objects notwithstanding, holds exactly the file. */
  lemma InterleavedRoundTrip(h: Hashes, run: Run, m: Manifest, pieces: seq<Bytes>, b: nat, n: nat, k: nat)
    requires IsRun(h, run) && Inv(h, run.states[0]) && b <= n < k <= |run.steps|
    requires InjectiveBlake3(h) && DescribesPieces(h, m, pieces)
    requires forall c :: c in Ids(m) ==> Supplied(h, run, b, n, c) && Undrained(run, b, n, c)
    ensures Reconstructs(h, run.states[n].store, m) && Tables.Stored(run.states[n].store, m) == pieces
    ensures PublishesAt(run, n, m) && (forall i :: n < i <= k ==> m.oid in run.states[i].objects) ==>
      && run.states[k].objects[m.oid] == m
      && Reconstructs(h, run.states[k].store, m) && Tables.Stored(run.states[k].store, m) == pieces
  {
    hide Enabled, Apply, Creates, Reconstructs;
    forall c | c in Ids(m) ensures c in run.states[n].store {
      SuppliedIsStored(h, run, b, n, c);
    }
    StoredThroughout(h, run, m, pieces, n);
    if PublishesAt(run, n, m) && (forall i :: n < i <= k ==> m.oid in run.states[i].objects) {
      PublishedHere(h, run, m, n);
      IntactStaysIntact(h, run, m, run.states[n].store, n + 1, k) by { hide Inv; }
      StoredThroughout(h, run, m, pieces, k);
    }
  }

  lemma StoredThroughout(h: Hashes, run: Run, m: Manifest, pieces: seq<Bytes>, n: nat)
    requires IsRun(h, run) && Inv(h, run.states[0]) && n <= |run.steps|
    requires InjectiveBlake3(h) && DescribesPieces(h, m, pieces) && Ids(m) <= run.states[n].store.Keys
    ensures Reconstructs(h, run.states[n].store, m) && Tables.Stored(run.states[n].store, m) == pieces
  {
    hide Inv, Enabled, Apply;
    RunKeepsInv(h, run, n);
    CatalogueFacts(h, run.states[n], m);
    StoredIsFile(h, run.states[n].store, m, pieces);
  }

  lemma PublishedHere(h: Hashes, run: Run, m: Manifest, n: nat)
    requires IsRun(h, run) && n < |run.steps| && Ids(m) <= run.states[n].store.Keys
    requires PublishesAt(run, n, m)
    ensures Intact(run.states[n + 1], m, run.states[n].store)
  {
    hide PublishTx, Creates;
    assert Next(h, run.states[n], run.steps[n], run.states[n + 1]);
    PublishCreates(run.states[n], run.steps[n].session);
  }
}
