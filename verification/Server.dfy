/** The server's handlers and maintenance jobs, as they run when nothing interleaves.

    Tables and provider contents are fields; a transaction works on local copies and assigns them at
    its commit, so an early error leaves the fields as they were. Each method is proved against the
    transaction functions of `Tables`, which are also the steps of the concurrent state machine. */
module Servers {
  import opened Content
  import opened Manifests
  import opened Tables
  import opened Steps
  import opened Invariants
  import opened Publications
  import opened Maintenance
  import GcEvidence

  datatype StoreAnswer = StoredOk | SizeDisagrees | DigestMismatch | ProviderFailed

  datatype Uploaded = NoContent | SessionNotFound | IndexOutside | LengthMismatch | Failed(cause: StoreAnswer)

  datatype Finalized = Done(created: bool) | UnknownUpload | MissingChunks | Corrupt | ShaMismatch

  datatype BeginAnswer =
    | Plan(id: SessionId, missing: seq<nat>)
    | Refused(answer: Begun)
    | OidMismatch

  datatype Downloaded = Body(bytes: Bytes) | ObjectNotFound | IndexNotFound | Unreadable

  /** Between calls nothing is in flight. */
  ghost function Settled(st: State): (r: State) {
    st.(puts := {}, acked := {}, plans := {}, listed := {}, stale := {}, draining := map[])
  }

  /** Indexes of a manifest whose chunk is not stored. */
  function MissingFrom(store: map<ChunkId, Bytes>, chunks: seq<Descriptor>, n: nat): (r: seq<nat>)
    requires n <= |chunks|
    ensures forall i :: i in r <==> 0 <= i < n && chunks[i].id !in store
  {
    if n == 0 then []
    else if chunks[n - 1].id in store then MissingFrom(store, chunks, n - 1)
    else MissingFrom(store, chunks, n - 1) + [n - 1]
  }

  lemma {:induction false} FirstLengthAt(chunks: seq<Descriptor>, i: nat)
    requires i < |chunks| && forall j :: 0 <= j < i ==> chunks[j].id != chunks[i].id
    ensures FirstLength(chunks, chunks[i].id) == chunks[i].length
  {
    if i > 0 { FirstLengthAt(chunks[1..], i - 1); }
  }

  class Server {
    const h: Hashes
    var now: nat
    var sessions: SessionTable
    var sessionChunks: HoldTable
    var chunks: ChunkTable
    var objects: ObjectTable
    var objectChunks: RowTable
    var tombstones: map<Oid, nat>
    var queue: set<ChunkId>
    var epochs: map<EpochId, Epoch>
    var store: map<ChunkId, Bytes>
    var issued: set<SessionId>

    ghost function View(): (st: State)
      reads this
    {
      State(now, sessions, sessionChunks, chunks, objects, objectChunks, tombstones, queue, epochs,
            store, issued, {}, {}, {}, {}, {}, map[])
    }

    ghost predicate Valid()
      reads this
    {
      Inv(h, View())
    }

    constructor (h: Hashes)
      ensures Valid() && View() == EMPTY && this.h == h
    {
      this.h, now, sessions, sessionChunks, chunks, objects := h, 0, map[], {}, map[], map[];
      objectChunks, tombstones, queue, epochs, store, issued := map[], map[], {}, map[], map[], {};
    }

    // ---------------------------------------------------------------- sessions

    /** The transaction shared by `begin_cdc` and `ensure_upload_session`. */
    method OpenSession(drawn: SessionId, m: Manifest) returns (r: Begun)
      requires SessionsSound(sessions, issued) && WellFormed(m)
      modifies this`sessions, this`issued
      ensures (View(), r) == BeginTx(old(View()), drawn, m)
    {
      var table := ExpireStale(sessions, now, m.oid);
      StaleEvolve(sessions, now, m.oid);
      var colliding := set s | s in table && IsOpenFor(table, s, m.oid);
      if colliding == {} {
        assert forall s :: !IsOpenFor(table, s, m.oid) by {
          forall s ensures !IsOpenFor(table, s, m.oid) { assert s !in colliding; }
        }
        sessions := table[drawn := Session(m, Open, now + SESSION_LIFETIME)];
        issued := issued + {drawn};
        return Started(drawn);
      }
      var s :| s in colliding;
      assert OpenSessionOf(table, m.oid) == Some(s) by {
        assert IsOpenFor(table, s, m.oid);
        forall t | IsOpenFor(table, t, m.oid) ensures t == s {
          assert IsOpenFor(sessions, t, m.oid) && IsOpenFor(sessions, s, m.oid);
        }
      }
      if table[s].manifest != m {
        return Conflict;
      }
      sessions := table[s := table[s].(expiresAt := now + SESSION_LIFETIME)];
      return Started(s);
    }

    /** `begin_cdc`: the session transaction, then one existence probe per descriptor. The client is
        told exactly the indexes whose chunk is absent, in ascending order. */
    method BeginCdc(oid: Oid, drawn: SessionId, m: Manifest) returns (r: BeginAnswer)
      requires SessionsSound(sessions, issued)
      modifies this`sessions, this`issued
      ensures r.OidMismatch? <==> WellFormed(m) && m.oid != oid
      ensures r.OidMismatch? ==> View() == old(View())
      ensures !r.OidMismatch? ==> View() == BeginTx(old(View()), drawn, m).0
      ensures r.Refused? ==> r.answer == BeginTx(old(View()), drawn, m).1 && !r.answer.Started?
      ensures r.Plan? ==>
        && BeginTx(old(View()), drawn, m).1 == Started(r.id)
        && r.missing == MissingFrom(store, m.chunks, |m.chunks|)
    {
      var verdict := Validate(m);
      if verdict.Rejected? {
        return Refused(InvalidManifest);
      }
      if m.oid != oid {
        return OidMismatch;
      }
      var begun := OpenSession(drawn, m);
      if !begun.Started? {
        return Refused(begun);
      }
      var missing := [];
      for index := 0 to |m.chunks|
        invariant missing == MissingFrom(store, m.chunks, index)
      {
        if m.chunks[index].id !in store {
          missing := missing + [index];
        }
      }
      return Plan(begun.id, missing);
    }

    // ---------------------------------------------------------------- chunk upload

    /** `register_and_store_chunk`: the registration commits first and stays committed whatever the
        digest check or the provider then answers. */
    method RegisterAndStoreChunk(s: SessionId, index: nat, data: Bytes, providerUp: bool) returns (r: StoreAnswer)
      requires Uploadable(View(), s, index, data)
      modifies this`chunks, this`sessionChunks, this`store
      ensures var d := sessions[s].manifest.chunks[index];
        var registered := RegisterTx(old(View()), s, index, data);
        && (r.SizeDisagrees? <==> !SizeAgrees(old(View()), d))
        && (r.DigestMismatch? <==> SizeAgrees(old(View()), d) && h.blake3(data) != d.id)
        && (r.StoredOk? ==> View() == Settled(PutEffect(h, registered, PendingPut(s, d.id, data))))
        && (!r.StoredOk? ==> View() == Settled(registered))
        && (providerUp ==> !r.ProviderFailed?)
    {
      var d := sessions[s].manifest.chunks[index];
      if d.id in chunks && chunks[d.id].size != d.length {
        return SizeDisagrees;
      }
      var rows := chunks;
      if d.id !in rows {
        rows := rows[d.id := ChunkRow(d.length, 0)];
      }
      var held := sessionChunks + {(s, d.id)};
      chunks, sessionChunks := rows, held;
      if h.blake3(data) != d.id {
        return DigestMismatch;
      }
      if !providerUp {
        return ProviderFailed;
      }
      if d.id !in store {
        store := store[d.id := data];
      }
      return StoredOk;
    }

    /** `upload_cdc_chunk`: only an open, unexpired session of this object accepts chunks, at an index
        of its manifest and with the recorded length. */
    method UploadCdcChunk(oid: Oid, s: SessionId, index: nat, data: Bytes, providerUp: bool)
      returns (r: Uploaded)
      modifies this`chunks, this`sessionChunks, this`store
      ensures r.SessionNotFound? <==>
        !(IsOpenFor(sessions, s, oid) && now < sessions[s].expiresAt)
      ensures r.IndexOutside? || r.LengthMismatch? || r.SessionNotFound? ==> View() == old(View())
      ensures r.IndexOutside? <==> !r.SessionNotFound? && index >= |sessions[s].manifest.chunks|
      ensures r.LengthMismatch? <==>
        && !r.SessionNotFound? && index < |sessions[s].manifest.chunks|
        && |data| != sessions[s].manifest.chunks[index].length
      ensures r.Failed? ==>
        Uploadable(old(View()), s, index, data) && View() == Settled(RegisterTx(old(View()), s, index, data))
      ensures r.NoContent? ==>
        && Uploadable(old(View()), s, index, data)
        && View() == Settled(PutEffect(h, RegisterTx(old(View()), s, index, data),
                                       PendingPut(s, sessions[s].manifest.chunks[index].id, data)))
      ensures (&& providerUp && IsOpenFor(sessions, s, oid) && now < sessions[s].expiresAt
               && Uploadable(old(View()), s, index, data)
               && SizeAgrees(old(View()), sessions[s].manifest.chunks[index])
               && h.blake3(data) == sessions[s].manifest.chunks[index].id)
        ==> r.NoContent?
      ensures (r.NoContent? || r.Failed?) ==> s in sessions && index < |sessions[s].manifest.chunks|
      ensures r.NoContent? ==> var d := sessions[s].manifest.chunks[index];
        h.blake3(data) == d.id && (d.id in old(chunks) ==> old(chunks)[d.id].size == d.length)
      ensures r.Failed? ==> var d := sessions[s].manifest.chunks[index];
        var disagrees := d.id in old(chunks) && old(chunks)[d.id].size != d.length;
        && (r.cause.SizeDisagrees? <==> disagrees)
        && (r.cause.DigestMismatch? <==> !disagrees && h.blake3(data) != d.id)
        && (r.cause.ProviderFailed? ==> !providerUp)
        && !r.cause.StoredOk?
      ensures r.NoContent? || (r.Failed? && !r.cause.SizeDisagrees?) ==> var d := sessions[s].manifest.chunks[index];
        && sessionChunks == old(sessionChunks) + {(s, d.id)}
        && chunks == (if d.id in old(chunks) then old(chunks) else old(chunks)[d.id := ChunkRow(d.length, 0)])
      ensures r.NoContent? ==> var d := sessions[s].manifest.chunks[index];
        store == if d.id in old(store) then old(store) else old(store)[d.id := data]
      ensures !r.NoContent? ==> store == old(store)
      ensures !r.NoContent? && !(r.Failed? && !r.cause.SizeDisagrees?) ==> View() == old(View())
    {
      if !(s in sessions && sessions[s].manifest.oid == oid && sessions[s].state == Open
           && now < sessions[s].expiresAt) {
        return SessionNotFound;
      }
      var manifest := sessions[s].manifest;
      if index >= |manifest.chunks| {
        return IndexOutside;
      }
      if |data| != manifest.chunks[index].length {
        return LengthMismatch;
      }
      var stored := RegisterAndStoreChunk(s, index, data, providerUp);
      if stored.StoredOk? {
        return NoContent;
      }
      return Uploaded.Failed(stored);
    }

    // ---------------------------------------------------------------- publication

    /** `publish_manifest`: one pass inserts missing chunk rows, a second writes the object's rows and
        bumps one count per row, all inside one transaction. */
    method PublishManifest(s: SessionId) returns (r: Published)
      requires s in sessions
      modifies this`sessions, this`chunks, this`objects, this`objectChunks
      ensures (View(), r) == PublishTx(old(View()), s)
    {
      hide WellFormed, EnsureRows, AddReferences, ObjectRows, Inv;
      var m := sessions[s].manifest;
      var verdict := Validate(m);
      if verdict.Rejected? {
        return Published.Rejected;
      }
      if (sessions[s].state == Open && now >= sessions[s].expiresAt) || sessions[s].state == Expired {
        return NotFound;
      }
      if sessions[s].state == SessionState.Finalized {
        return Existing;
      }
      var rows := InsertChunkRows(m);
      if m.oid in objects {
        chunks, sessions := rows, Finalize(sessions, s);
        return Existing;
      }
      var table, counted := WriteObjectRows(m, rows);
      chunks, objects, objectChunks, sessions :=
        counted, objects[m.oid := m], table, Finalize(sessions, s);
      return Created;
    }

    /** `INSERT … ON CONFLICT DO NOTHING`, descriptor by descriptor. */
    method InsertChunkRows(m: Manifest) returns (rows: ChunkTable)
      ensures rows == EnsureRows(chunks, m)
    {
      hide InsertedRows, EnsureRows;
      rows := chunks;
      NothingInserted(chunks, m);
      for i := 0 to |m.chunks|
        invariant rows == InsertedRows(chunks, m, i)
      {
        var d := m.chunks[i];
        OneMoreRow(chunks, m, i);
        if d.id !in rows {
          rows := rows[d.id := ChunkRow(d.length, 0)];
        }
      }
      EverythingInserted(chunks, m);
    }

    /** One object_chunks row and one reference per descriptor; every narrowing fits. */
    method WriteObjectRows(m: Manifest, rows: ChunkTable) returns (table: RowTable, counted: ChunkTable)
      requires WellFormed(m) && rows == EnsureRows(chunks, m)
      ensures table == objectChunks + ObjectRows(m.oid, m)
      ensures counted == AddReferences(rows, ObjectRows(m.oid, m))
    {
      hide WellFormed, Naming, EnsureRows, AddReferences, PrefixRows, ObjectRows, Ids;
      table, counted := objectChunks, rows;
      NoReferencesYet(m.oid, m.chunks, rows);
      for ordinal := 0 to |m.chunks|
        invariant table == objectChunks + PrefixRows(m.oid, m.chunks, ordinal)
        invariant counted == AddReferences(rows, PrefixRows(m.oid, m.chunks, ordinal))
      {
        var d := m.chunks[ordinal];
        NarrowingsSucceed(m, ordinal);
        assert ordinal <= I32_MAX && d.offset <= I64_MAX && d.length <= I32_MAX;
        NamedByManifest(m, ordinal);
        PrefixRowsSnoc(m.oid, m.chunks, ordinal);
        OneMoreReference(rows, PrefixRows(m.oid, m.chunks, ordinal), (m.oid, ordinal), d);
        table := table[(m.oid, ordinal) := d];
        counted := counted[d.id := counted[d.id].(refs := counted[d.id].refs + 1)];
      }
      AllRows(m);
    }

    // ---------------------------------------------------------------- finalize and download

    /** Reads a manifest's chunks back in order, checking length and digest of each, feeding the
        running hash; the loop of both `finalize_cdc` and `download_basic`. */
    method ReadBack(m: Manifest) returns (r: Downloaded, absent: bool)
      ensures r.Body? <==> forall i :: 0 <= i < |m.chunks| ==> Matches(h, store, m.chunks[i])
      ensures r.Body? ==> Ids(m) <= store.Keys
      ensures r.Body? ==> r.bytes == Concat(Tables.Stored(store, m))
      ensures !r.Body? ==> r.Unreadable?
      ensures !r.Body? ==> exists i: nat :: FirstBad(h, store, m.chunks, i) && (absent <==> m.chunks[i].id !in store)
    {
      var hashed: Bytes := [];
      absent := false;
      for i := 0 to |m.chunks|
        invariant forall j :: 0 <= j < i ==> Matches(h, store, m.chunks[j])
        invariant hashed == Concat(Contents(store, m.chunks, i))
      {
        var d := m.chunks[i];
        assert d.id in Ids(m);
        if d.id !in store {
          assert FirstBad(h, store, m.chunks, i);
          return Unreadable, true;
        }
        var bytes := store[d.id];
        if h.blake3(bytes) != d.id || |bytes| != d.length {
          assert FirstBad(h, store, m.chunks, i);
          return Unreadable, false;
        }
        ConcatSnoc(Contents(store, m.chunks, i), bytes);
        assert Contents(store, m.chunks, i + 1) == Contents(store, m.chunks, i) + [bytes];
        hashed := hashed + bytes;
      }
      assert Ids(m) <= store.Keys by {
        forall c | c in Ids(m) ensures c in store {
          var i :| 0 <= i < |m.chunks| && m.chunks[i].id == c;
          assert Matches(h, store, m.chunks[i]);
        }
      }
      assert Contents(store, m.chunks, |m.chunks|) == Tables.Stored(store, m);
      return Body(hashed), false;
    }

    /** `finalize_cdc`: a finalized session answers from its state; otherwise the object is published
        exactly when the stored chunks reconstruct it, and nothing changes when they do not. */
    method FinalizeCdc(oid: Oid, s: SessionId) returns (r: Finalized)
      requires Valid()
      modifies this`sessions, this`chunks, this`objects, this`objectChunks
      ensures var known := Finalizable(old(View()), s) && old(sessions)[s].manifest.oid == oid;
        && (r.UnknownUpload? <==> !known)
        && (r.Done? <==> known && (|| old(sessions)[s].state == SessionState.Finalized
                                   || Reconstructs(h, store, old(sessions)[s].manifest)))
        && (r.Done? ==> View() == PublishTx(old(View()), s).0
                        && (r.created <==> Creates(old(View()), s)))
        && (!r.Done? ==> View() == old(View()))
      ensures r.MissingChunks? || r.Corrupt? ==>
        exists i: nat :: FirstBad(h, store, sessions[s].manifest.chunks, i)
                         && (r.MissingChunks? <==> sessions[s].manifest.chunks[i].id !in store)
      ensures r.ShaMismatch? ==>
        forall i :: 0 <= i < |sessions[s].manifest.chunks| ==> Matches(h, store, sessions[s].manifest.chunks[i])
    {
      if !(s in sessions && sessions[s].manifest.oid == oid
           && ((sessions[s].state == Open && now < sessions[s].expiresAt)
               || sessions[s].state == SessionState.Finalized)) {
        return UnknownUpload;
      }
      var m := sessions[s].manifest;
      assert WellFormed(m);
      if sessions[s].state == SessionState.Finalized {
        return Done(false);
      }
      var body, absent := ReadBack(m);
      ReadBackReconstructs(h, store, m);
      if !body.Body? {
        return if absent then MissingChunks else Corrupt;
      }
      if h.sha256(body.bytes) != oid {
        return ShaMismatch;
      }
      var published := PublishManifest(s);
      return Done(published == Created);
    }

    /** `download_basic`: the body is served exactly when the live object reconstructs, and then it is
        the concatenation of its stored chunks, hashing to the requested id. */
    method DownloadBasic(oid: Oid) returns (r: Downloaded)
      requires Valid()
      ensures r.ObjectNotFound? <==> oid !in objects
      ensures r.Body? <==> oid in objects && Reconstructs(h, store, objects[oid])
      ensures r.Body? ==> r.bytes == Concat(Tables.Stored(store, objects[oid])) && h.sha256(r.bytes) == oid
    {
      if oid !in objects {
        return ObjectNotFound;
      }
      var m := objects[oid];
      var verdict := Validate(m);
      if verdict.Rejected? {
        return Unreadable;
      }
      var body, absent := ReadBack(m);
      ReadBackReconstructs(h, store, m);
      if !body.Body? || h.sha256(body.bytes) != oid {
        return Unreadable;
      }
      return body;
    }

    /** `download_cdc_chunk`: one chunk of a live object, by its index in the manifest. */
    method DownloadCdcChunk(oid: Oid, index: nat) returns (r: Downloaded)
      ensures r.ObjectNotFound? <==> oid !in objects
      ensures r.IndexNotFound? <==> oid in objects && index >= |objects[oid].chunks|
      ensures r.Body? <==>
        oid in objects && index < |objects[oid].chunks| && Matches(h, store, objects[oid].chunks[index])
      ensures r.Body? ==> r.bytes == store[objects[oid].chunks[index].id]
    {
      if oid !in objects {
        return ObjectNotFound;
      }
      var chunks := objects[oid].chunks;
      if index >= |chunks| {
        return IndexNotFound;
      }
      var d := chunks[index];
      if d.id !in store || h.blake3(store[d.id]) != d.id || |store[d.id]| != d.length {
        return Unreadable;
      }
      return Body(store[d.id]);
    }

    // ---------------------------------------------------------------- snapshots and staging

    /** `submit_snapshot`: one row per object id; a repeated id aborts and leaves no partial epoch. */
    method SubmitSnapshot(id: EpochId, startedAt: nat, oids: seq<Oid>) returns (committed: bool)
      requires id !in epochs
      modifies this`epochs
      ensures View() == SubmitTx(old(View()), id, startedAt, oids)
      ensures committed <==> forall i, j :: 0 <= i < j < |oids| ==> oids[i] != oids[j]
      ensures !committed ==> epochs == old(epochs)
      ensures committed ==>
        && id in epochs && epochs == old(epochs)[id := epochs[id]] && epochs[id].completedAt == startedAt
        && forall oid :: oid in epochs[id].reachable <==> oid in oids
    {
      var reachable: set<Oid> := {};
      for n := 0 to |oids|
        invariant reachable == set oid | oid in oids[..n]
        invariant forall i, j :: 0 <= i < j < n ==> oids[i] != oids[j]
      {
        if oids[n] in reachable {
          var i :| 0 <= i < n && oids[i] == oids[n];
          return false;
        }
        assert forall i :: 0 <= i < n ==> oids[i] in oids[..n];
        assert oids[..n + 1] == oids[..n] + [oids[n]];
        reachable := reachable + {oids[n]};
      }
      assert oids[..|oids|] == oids;
      epochs := epochs[id := Epoch(startedAt, reachable)];
      return true;
    }

    /** `stage` right after its own dry run: it returns exactly the live, unstaged objects in neither of the two newest
        snapshots, and each of them is due when the grace is over. */
    method StageCandidates(grace: nat) returns (candidates: set<Oid>)
      modifies this`tombstones
      ensures forall oid :: oid in candidates <==>
        oid in objects && oid !in old(tombstones) && GcEvidence.AbsentFromNewestTwo(epochs, oid)
      ensures candidates == Candidates(old(View()))
      ensures tombstones.Keys == old(tombstones).Keys + candidates
      ensures forall oid :: oid in candidates ==> tombstones[oid] == now + grace
      ensures forall oid :: oid in old(tombstones) ==> tombstones[oid] == old(tombstones)[oid]
      ensures View() == StageTx(old(View()), candidates, grace)
    {
      hide Unreachable, Candidates, GcEvidence.AbsentFromNewestTwo;
      candidates := DryRun();
      var added := TombstonesFor(candidates, grace);
      tombstones := added + tombstones;
    }

    /** `dry_run`: the live, unstaged objects in neither of the two newest snapshots. */
    method DryRun() returns (candidates: set<Oid>)
      ensures candidates == Candidates(View())
      ensures forall oid :: oid in candidates <==>
        oid in objects && oid !in tombstones && GcEvidence.AbsentFromNewestTwo(epochs, oid)
    {
      hide Unreachable, GcEvidence.AbsentFromNewestTwo;
      candidates := set oid | oid in objects && Unreachable(epochs, oid) && oid !in tombstones;
      forall oid
        ensures oid in Candidates(View()) <==>
          oid in objects && oid !in tombstones && GcEvidence.AbsentFromNewestTwo(epochs, oid)
      {
        GcEvidence.CandidatesExactly(View(), oid);
      }
    }

    method TombstonesFor(candidates: set<Oid>, grace: nat) returns (added: map<Oid, nat>)
      ensures added == map oid | oid in candidates :: now + grace
    {
      added := map[];
      var rest := candidates;
      while rest != {}
        invariant rest <= candidates
        invariant added == map oid | oid in candidates - rest :: now + grace
      {
        var oid :| oid in rest;
        added := added[oid := now + grace];
        rest := rest - {oid};
      }
    }

    // ---------------------------------------------------------------- collection

    /** Each row of the object gives back its reference and queues the chunk if none is left. */
    method GiveBackReferences(owned: RowTable) returns (counted: ChunkTable, queued: set<ChunkId>)
      requires Counted(chunks, objectChunks) && RowsAmong(owned, objectChunks)
      requires forall k :: k in owned ==> owned[k].id in chunks
      ensures counted == DropReferences(chunks, owned)
      ensures queued == queue + ZeroNamed(owned, counted)
    {
      hide Counted, DropReferences, ZeroNamed;
      counted, queued := chunks, queue;
      var rest := owned.Keys;
      ghost var done: RowTable := map[];
      NothingDropped(chunks);
      while rest != {}
        invariant rest <= owned.Keys && done.Keys == owned.Keys - rest
        invariant forall k :: k in done ==> done[k] == owned[k]
        invariant counted == DropReferences(chunks, done)
        invariant queued == queue + ZeroNamed(done, counted)
      {
        var k :| k in rest;
        var c := owned[k].id;
        PassOverRow(chunks, objectChunks, done, k);
        counted := counted[c := counted[c].(refs := counted[c].refs - 1)];
        if counted[c].refs == 0 {
          queued := queued + {c};
        }
        rest := rest - {k};
        done := done[k := owned[k]];
      }
      assert done == owned;
    }

    /** One pass of the `collect_due` loop: the rows are read, the object is deleted with its cascade,
        then its references are given back, all in one transaction. */
    method CollectOne(oid: Oid)
      requires Catalogued(View())
      modifies this`objects, this`objectChunks, this`tombstones, this`chunks, this`queue
      ensures View() == CollectTx(old(View()), oid)
    {
      hide CollectTx, DropReferences, ZeroNamed, RowsMatch, Counted, WellFormed;
      CollectIsPass(View(), oid);
      var owned := RowsOf(objectChunks, oid);
      var counted, queued := GiveBackReferences(owned);
      objects, objectChunks, tombstones := objects - {oid}, objectChunks - owned.Keys, tombstones - {oid};
      chunks, queue := counted, queued;
    }

    /** The `collect_due` loop, for a fixed clock and nobody staging meanwhile: it terminates, its
        counter is the number of tombstones due on entry, exactly their objects are gone, and every
        other object keeps its row, its chunk rows and its manifest. */
    method CollectDueObjects() returns (deleted: nat)
      requires Valid()
      modifies this`objects, this`objectChunks, this`tombstones, this`chunks, this`queue
      ensures Valid()
      ensures deleted == |DueAt(old(View()))|
      ensures Collected(old(View()), View(), DueAt(old(View())))
    {
      hide Inv, Catalogued, CollectTx, Collected, Collecting;
      ghost var before := View();
      ghost var gone: set<Oid> := {};
      deleted := 0;
      CollectingBegins(h, before);
      while exists oid :: oid in tombstones && tombstones[oid] <= now
        invariant Collecting(h, before, View(), gone, deleted)
        decreases |tombstones.Keys|
      {
        var oid :| oid in tombstones && tombstones[oid] <= now;
        CollectingContinues(h, before, View(), gone, deleted, oid);
        CollectOne(oid);
        gone := gone + {oid};
        deleted := deleted + 1;
      }
      CollectingEnds(h, before, View(), gone, deleted);
    }

    /** `reclaim_expired_uploads`, before its drain: the three statements of its transaction. */
    method ReclaimSessions(grace: nat) returns (removed: nat)
      modifies this`sessions, this`sessionChunks, this`queue
      ensures View() == ReclaimTx(old(View()), grace)
      ensures removed == |set s | s in old(sessions) && old(sessions)[s].state != SessionState.Finalized
                                  && old(sessions)[s].expiresAt + grace <= now|
    {
      var expired := ExpireAll(sessions, now);
      var leaving := Removable(expired, now, grace);
      var abandoned := set hold | hold in sessionChunks && hold.0 in leaving
        && hold.1 in chunks && chunks[hold.1].refs == 0
        && (forall other :: other in sessionChunks && other.1 == hold.1 ==> !IsOpen(expired, other.0))
        :: hold.1;
      assert abandoned == Abandoned(chunks, expired, sessionChunks, leaving) by {
        AbandonedByHolds(chunks, expired, sessionChunks, leaving);
      }
      assert leaving == set s | s in sessions && sessions[s].state != SessionState.Finalized
                                && sessions[s].expiresAt + grace <= now;
      queue := queue + abandoned;
      sessions := expired - leaving;
      sessionChunks := Released(sessionChunks, leaving);
      return |leaving|;
    }

    // ---------------------------------------------------------------- the deletion queue

    /** `drain_chunk_queue`: each listed entry is dropped if its row is missing or referenced, kept if
        an open session holds the chunk, and otherwise its bytes are deleted before its row. The call
        succeeds exactly when the provider deletes every dead chunk and no session row, of any state,
        still names one: a finalized session's registration fails the row deletion after the bytes
        are gone. A failing call stops at such a chunk, and what it did before and at it is exact. Either way
        only dead chunks lose bytes, and a dead chunk whose row survives stays queued. */
    method DrainChunkQueue(failing: set<ChunkId>) returns (ok: bool)
      modifies this`chunks, this`queue, this`store
      ensures ok <==> forall c :: c in DeadQueued(old(View())) ==> Deletable(old(View()), failing, c)
      ensures ok ==>
        && chunks == old(chunks) - DeadQueued(old(View()))
        && store == old(store) - DeadQueued(old(View()))
        && queue == KeptQueued(old(View()))
      ensures !ok ==> exists settled, c :: StopsAt(old(View()), View(), failing, settled, c)
      ensures Drained(old(View()), View())
    {
      hide Draining, Drained, HeldOpen, DeadQueued, KeptQueued, Dead, StopsAt;
      ghost var before := View();
      var rest := queue;
      DrainBegins(before, failing);
      while rest != {}
        invariant Draining(before, View(), rest, failing)
        invariant sessionChunks == before.sessionChunks
      {
        var raw :| raw in rest;
        ghost var st := View();
        if raw !in chunks || chunks[raw].refs > 0 {
          DrainPasses(before, st, rest, failing, raw);
          queue := queue - {raw};
        } else {
          var active := exists hold :: hold in sessionChunks && hold.1 == raw && IsOpen(sessions, hold.0);
          ActiveIsHeld(sessions, sessionChunks, raw);
          if active {
            DrainKeeps(before, st, rest, failing, raw);
          } else {
            var removed := DrainDead(raw, failing, before, rest);
            if !removed {
              return false;
            }
          }
        }
        rest := rest - {raw};
      }
      DrainEnds(before, View(), failing);
      DrainLeaves(before, View(), {}, failing);
      return true;
    }

    /** A dead entry of the drain: the provider deletes the bytes first, then the row goes, unless some session row
        names the chunk. */
    method DrainDead(raw: ChunkId, failing: set<ChunkId>, ghost before: State, ghost rest: set<ChunkId>)
      returns (removed: bool)
      requires Draining(before, View(), rest, failing) && raw in rest && raw in chunks && chunks[raw].refs <= 0
      requires !HeldOpen(sessions, sessionChunks, raw) && sessionChunks == before.sessionChunks
      modifies this`chunks, this`queue, this`store
      ensures raw in DeadQueued(before) && (removed <==> Deletable(before, failing, raw))
      ensures removed ==> Draining(before, View(), rest - {raw}, failing)
      ensures !removed ==>
        StopsAt(before, View(), failing, before.queue - rest, raw) && Drained(before, View())
    {
      hide Draining, Drained, HeldOpen, DeadQueued, KeptQueued, Dead, StopsAt;
      ghost var st := View();
      DrainFails(before, st, rest, failing, raw);
      if raw in failing {
        StopLeaves(before, View(), failing, before.queue - rest, raw);
        return false;
      }
      store := store - {raw};
      var named := exists hold :: hold in sessionChunks && hold.1 == raw;
      NamedByHold(sessionChunks, raw);
      if named {
        StopLeaves(before, View(), failing, before.queue - rest, raw);
        return false;
      }
      DrainRemoves(before, st, rest, failing, raw);
      chunks := chunks - {raw};
      queue := queue - {raw};
      return true;
    }
  }

  predicate Matches(h: Hashes, store: map<ChunkId, Bytes>, d: Descriptor) {
    d.id in store && |store[d.id]| == d.length && h.blake3(store[d.id]) == d.id
  }

  /** The chunk at which reading back stops. */
  predicate FirstBad(h: Hashes, store: map<ChunkId, Bytes>, chunks: seq<Descriptor>, i: nat) {
    i < |chunks| && !Matches(h, store, chunks[i]) && forall j :: 0 <= j < i ==> Matches(h, store, chunks[j])
  }

  function Contents(store: map<ChunkId, Bytes>, chunks: seq<Descriptor>, n: nat): (r: seq<Bytes>)
    requires n <= |chunks| && forall i :: 0 <= i < n ==> chunks[i].id in store
  {
    seq(n, i requires 0 <= i < n => store[chunks[i].id])
  }

  lemma ReadBackReconstructs(h: Hashes, store: map<ChunkId, Bytes>, m: Manifest)
    ensures Reconstructs(h, store, m) <==>
      && Ids(m) <= store.Keys
      && (forall i :: 0 <= i < |m.chunks| ==> Matches(h, store, m.chunks[i]))
      && h.sha256(Concat(Tables.Stored(store, m))) == m.oid
  {
    if Ids(m) <= store.Keys {
      forall i | 0 <= i < |m.chunks|
        ensures Matches(h, store, m.chunks[i]) <==>
          |Tables.Stored(store, m)[i]| == m.chunks[i].length && h.blake3(Tables.Stored(store, m)[i]) == m.chunks[i].id
      {
        assert m.chunks[i].id in Ids(m);
      }
    }
  }

  /** The chunk rows after the first `n` upserts of a manifest. */
  function InsertedRows(chunks: ChunkTable, m: Manifest, n: nat): (r: ChunkTable)
    requires n <= |m.chunks|
  {
    map c | c in chunks.Keys + (set i | 0 <= i < n :: m.chunks[i].id) ::
      if c in chunks then chunks[c] else ChunkRow(FirstLength(m.chunks, c), 0)
  }

  lemma NothingInserted(chunks: ChunkTable, m: Manifest)
    ensures InsertedRows(chunks, m, 0) == chunks
  {
  }

  lemma EverythingInserted(chunks: ChunkTable, m: Manifest)
    ensures InsertedRows(chunks, m, |m.chunks|) == EnsureRows(chunks, m)
  {
    assert (set i | 0 <= i < |m.chunks| :: m.chunks[i].id) == Ids(m);
  }

  lemma OneMoreRow(chunks: ChunkTable, m: Manifest, n: nat)
    requires n < |m.chunks|
    ensures var before, d := InsertedRows(chunks, m, n), m.chunks[n];
      InsertedRows(chunks, m, n + 1) == if d.id in before then before else before[d.id := ChunkRow(d.length, 0)]
  {
    var before, d := InsertedRows(chunks, m, n), m.chunks[n];
    var few, many := (set i | 0 <= i < n :: m.chunks[i].id), (set i | 0 <= i < n + 1 :: m.chunks[i].id);
    assert many == few + {d.id};
    if d.id !in before {
      forall i | 0 <= i < n ensures m.chunks[i].id != d.id { assert m.chunks[i].id in few; }
      FirstLengthAt(m.chunks, n);
    }
  }

  lemma NamedByManifest(m: Manifest, i: nat)
    requires i < |m.chunks|
    ensures m.chunks[i].id in Ids(m)
  {
  }

  lemma AllRows(m: Manifest)
    ensures PrefixRows(m.oid, m.chunks, |m.chunks|) == ObjectRows(m.oid, m)
  {
  }

  /** The empty set of rows adds no reference. */
  lemma NoReferencesYet(oid: Oid, chunks: seq<Descriptor>, rows: ChunkTable)
    ensures AddReferences(rows, PrefixRows(oid, chunks, 0)) == rows
    ensures PrefixRows(oid, chunks, 0) == map[]
  {
    var none := PrefixRows(oid, chunks, 0);
    assert none == map[];
    forall c ensures |Naming(none, c)| == 0 {
      assert Naming(none, c) == {};
    }
  }

  /** One more row is one more reference for the chunk it names. */
  lemma OneMoreReference(rows: ChunkTable, done: RowTable, k: (Oid, nat), d: Descriptor)
    requires k !in done && d.id in rows
    ensures d.id in AddReferences(rows, done)
    ensures var before, after := AddReferences(rows, done), AddReferences(rows, done[k := d]);
      after == before[d.id := before[d.id].(refs := before[d.id].refs + 1)]
  {
    hide Naming;
    forall c | c in rows
      ensures |Naming(done[k := d], c)| == |Naming(done, c)| + if d.id == c then 1 else 0
    {
      NamingInsert(done, k, d, c);
    }
  }
}
