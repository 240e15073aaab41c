/** No live object loses a byte: what holds over every interleaving, and under which condition. */
module LiveBytes {
  import opened Content
  import opened Manifests
  import opened Tables
  import opened Steps
  import opened Invariants

  /** The object is live under this manifest and each of its chunks is stored as in `bytes`. */
  ghost predicate Intact(st: State, m: Manifest, bytes: map<ChunkId, Bytes>) {
    && m.oid in st.objects && st.objects[m.oid] == m
    && forall c :: c in Ids(m) ==> c in st.store && c in bytes && st.store[c] == bytes[c]
  }

  /** A live object's chunk is referenced, so its row is never locked for deletion. */
  lemma LiveChunkReferenced(h: Hashes, st: State, oid: Oid, c: ChunkId)
    requires Inv(h, st) && oid in st.objects && c in Ids(st.objects[oid])
    ensures c in st.chunks && st.chunks[c].refs > 0 && c !in st.draining
  {
    var i :| 0 <= i < |st.objects[oid].chunks| && st.objects[oid].chunks[i].id == c;
    assert (oid, i) in st.objectChunks;
    NamingNone(st.objectChunks, c);
  }

  lemma PublishKeepsManifest(st: State, s: SessionId, oid: Oid)
    requires oid in st.objects
    ensures oid in PublishTx(st, s).0.objects && PublishTx(st, s).0.objects[oid] == st.objects[oid]
  {
    hide EnsureRows, AddReferences, ObjectRows, WellFormed;
  }

  /** A published manifest never changes while its object is live. */
  lemma StepKeepsManifest(h: Hashes, st: State, step: Step, oid: Oid)
    requires Enabled(st, step) && Catalogued(st) && oid in st.objects
    ensures var r := Apply(h, st, step); oid in r.objects ==> r.objects[oid] == st.objects[oid]
    ensures oid !in Apply(h, st, step).objects ==> step == Collect(oid)
  {
    hide CatalogueSound, BeginTx, RegisterTx, PublishTx, CollectTx, ReclaimTx;
    Frame(h, st, step);
    match step {
      case Publish(s) => PublishKeepsManifest(st, s, oid);
      case Collect(other) => CollectKeepsCatalogue(st, other);
      case _ =>
    }
  }

  /** One step never removes or alters a stored byte of a live object, whether it stays live. */
  lemma StepKeepsLiveBytes(h: Hashes, st: State, step: Step, oid: Oid, c: ChunkId)
    requires Enabled(st, step) && Inv(h, st) && oid in st.objects
    requires c in Ids(st.objects[oid]) && c in st.store
    ensures var r := Apply(h, st, step); c in r.store && r.store[c] == st.store[c]
  {
    hide Inv, Ids, BeginTx, RegisterTx, PublishTx, CollectTx, ReclaimTx;
    Frame(h, st, step);
    LiveChunkReferenced(h, st, oid, c);
  }

  lemma StepKeepsIntact(h: Hashes, st: State, step: Step, m: Manifest, bytes: map<ChunkId, Bytes>)
    requires Enabled(st, step) && Inv(h, st) && Intact(st, m, bytes)
    requires m.oid in Apply(h, st, step).objects
    ensures Intact(Apply(h, st, step), m, bytes)
  {
    hide Enabled, Apply, Ids, CatalogueSound;
    StepKeepsManifest(h, st, step, m.oid);
    var r := Apply(h, st, step);
    forall c | c in Ids(m) ensures c in r.store && c in bytes && r.store[c] == bytes[c] {
      StepKeepsLiveBytes(h, st, step, m.oid, c);
    }
  }

  /** Once stored, a live object's chunks stay stored, with the same bytes, as long as it is live. */
  lemma {:induction false} IntactStaysIntact(h: Hashes, run: Run, m: Manifest,
                                             bytes: map<ChunkId, Bytes>, j: nat, k: nat)
    requires IsRun(h, run) && Inv(h, run.states[0]) && j <= k <= |run.steps|
    requires Intact(run.states[j], m, bytes)
    requires forall i :: j <= i <= k ==> m.oid in run.states[i].objects
    ensures Intact(run.states[k], m, bytes)
    decreases k - j
  {
    hide Enabled, Apply, Inv;
    if j < k {
      IntactStaysIntact(h, run, m, bytes, j, k - 1);
      RunKeepsInv(h, run, k - 1);
      assert Next(h, run.states[k - 1], run.steps[k - 1], run.states[k]);
      StepKeepsIntact(h, run.states[k - 1], run.steps[k - 1], m, bytes);
    }
  }

  // ------------------------------------------------------------------ registered uploads

  /** Step `t` of the run is a successful provider write of `c` for session `s`. */
  ghost predicate PutAt(h: Hashes, run: Run, t: nat, s: SessionId, c: ChunkId)
    requires t < |run.steps|
  {
    && run.steps[t].Put?
    && run.steps[t].put.session == s && run.steps[t].put.chunk == c
    && h.blake3(run.steps[t].put.data) == c
  }

  lemma {:induction false} AckPersists(h: Hashes, run: Run, t: nat, n: nat, s: SessionId, c: ChunkId)
    requires IsRun(h, run) && t < n <= |run.steps| && PutAt(h, run, t, s, c)
    ensures (s, c) in run.states[n].acked
  {
    hide BeginTx, RegisterTx, PublishTx, CollectTx, ReclaimTx;
    assert Next(h, run.states[n - 1], run.steps[n - 1], run.states[n]);
    if t < n - 1 {
      AckPersists(h, run, t, n - 1, s, c);
      Frame(h, run.states[n - 1], run.steps[n - 1]);
    }
  }

  /** Interleaved live-bytes safety. Under any interleaving of registrations, writes, publications,
      collections, reclamations and drains (drains that abort after their provider delete included):
      if every chunk of a session's manifest was registered to that session and then stored before
      its publication, then as long as the published object stays live every one of its chunks is
      in the store with a matching digest, and its bytes never change. */
  lemma InterleavedLiveBytes(h: Hashes, run: Run, s: SessionId, j: nat, k: nat)
    requires IsRun(h, run) && Inv(h, run.states[0]) && j < k <= |run.steps|
    requires run.steps[j] == Publish(s) && Creates(run.states[j], s)
    requires forall c :: c in Ids(run.states[j].sessions[s].manifest) ==>
      exists t :: 0 <= t < j && PutAt(h, run, t, s, c)
    requires forall i :: j < i <= k ==> run.states[j].sessions[s].manifest.oid in run.states[i].objects
    ensures var m := run.states[j].sessions[s].manifest;
      && Intact(run.states[k], m, run.states[j].store)
      && forall c :: c in Ids(m) ==> h.blake3(run.states[k].store[c]) == c
  {
    hide Enabled, Apply, PublishTx, Creates, CatalogueSound, Ids;
    PublishCreates(run.states[j], s);
    var m := run.states[j].sessions[s].manifest;
    RunKeepsInv(h, run, j);
    PublishedIntact(h, run, s, j);
    IntactStaysIntact(h, run, m, run.states[j].store, j + 1, k);
    RunKeepsInv(h, run, k);
  }

  lemma PublishedIntact(h: Hashes, run: Run, s: SessionId, j: nat)
    requires IsRun(h, run) && j < |run.steps| && Inv(h, run.states[j])
    requires run.steps[j] == Publish(s) && Creates(run.states[j], s)
    requires forall c :: c in Ids(run.states[j].sessions[s].manifest) ==>
      exists t :: 0 <= t < j && PutAt(h, run, t, s, c)
    ensures Intact(run.states[j + 1], run.states[j].sessions[s].manifest, run.states[j].store)
  {
    hide CatalogueSound, Ids, PublishTx, Creates;
    PublishCreates(run.states[j], s);
    var m := run.states[j].sessions[s].manifest;
    forall c | c in Ids(m) ensures c in run.states[j].store {
      var t :| 0 <= t < j && PutAt(h, run, t, s, c);
      AckPersists(h, run, t, j, s, c);
      assert IsOpen(run.states[j].sessions, s);
    }
    assert Next(h, run.states[j], run.steps[j], run.states[j + 1]);
  }

  // ------------------------------------------------------------------ finalize as one step

  /** A creating publication whose chunks were verified in the same step. */
  ghost predicate VerifiedPublish(h: Hashes, st: State, step: Step) {
    step.Publish? && Creates(st, step.session) ==>
      Reconstructs(h, st.store, st.sessions[step.session].manifest)
  }

  /** The basic path's evidence: the server cut and hashed the file itself, and every chunk upload
      of the session was acknowledged. */
  ghost predicate DescribesPieces(h: Hashes, m: Manifest, pieces: seq<Bytes>) {
    && |pieces| == |m.chunks|
    && (forall i :: 0 <= i < |pieces| ==>
          m.chunks[i].id == h.blake3(pieces[i]) && m.chunks[i].length == |pieces[i]|)
    && m.oid == h.sha256(Concat(pieces))
  }

  ghost predicate BasicPublish(h: Hashes, st: State, s: SessionId, pieces: seq<Bytes>) {
    && s in st.sessions
    && DescribesPieces(h, st.sessions[s].manifest, pieces)
    && forall c :: c in Ids(st.sessions[s].manifest) ==> (s, c) in st.acked
  }

  /** When digests determine bytes, an acknowledged basic upload reconstructs its file: nothing has
      to be read back before publishing. */
  lemma BasicPublishReconstructs(h: Hashes, st: State, s: SessionId, pieces: seq<Bytes>)
    requires Inv(h, st) && IsOpen(st.sessions, s)
    requires BasicPublish(h, st, s, pieces) && InjectiveBlake3(h)
    ensures Reconstructs(h, st.store, st.sessions[s].manifest)
    ensures Stored(st.store, st.sessions[s].manifest) == pieces
  {
    var m := st.sessions[s].manifest;
    assert Ids(m) <= st.store.Keys;
    forall i | 0 <= i < |m.chunks| ensures Stored(st.store, m)[i] == pieces[i] {
      assert m.chunks[i].id in Ids(m);
      assert h.blake3(st.store[m.chunks[i].id]) == h.blake3(pieces[i]);
    }
    assert Stored(st.store, m) == pieces;
  }

  ghost predicate AllReconstruct(h: Hashes, st: State) {
    forall oid :: oid in st.objects ==> Reconstructs(h, st.store, st.objects[oid])
  }

  /** A store that keeps a manifest's bytes keeps the object. */
  lemma ReconstructsAgain(h: Hashes, before: map<ChunkId, Bytes>, after: map<ChunkId, Bytes>, m: Manifest)
    requires Reconstructs(h, before, m)
    requires forall c :: c in Ids(m) ==> c in after && after[c] == before[c]
    ensures Reconstructs(h, after, m)
  {
    assert Stored(before, m) == Stored(after, m) by {
      forall i | 0 <= i < |m.chunks| ensures Stored(before, m)[i] == Stored(after, m)[i] {
        assert m.chunks[i].id in Ids(m);
      }
    }
  }

  /** An object appears only by a creating publication of its own manifest. */
  lemma NewObjectPublished(h: Hashes, st: State, step: Step, oid: Oid)
    requires Enabled(st, step) && CatalogueSound(st.objects, st.objectChunks, st.chunks)
    requires oid in Apply(h, st, step).objects && oid !in st.objects
    ensures step.Publish? && Creates(st, step.session)
    ensures oid == st.sessions[step.session].manifest.oid
    ensures Apply(h, st, step).objects[oid] == st.sessions[step.session].manifest
    ensures Apply(h, st, step).store == st.store
  {
    hide CatalogueSound, BeginTx, RegisterTx, PublishTx, CollectTx, ReclaimTx;
    Frame(h, st, step);
    match step {
      case Publish(s) => PublishCreates(st, s);
      case Collect(other) => CollectKeepsCatalogue(st, other);
      case _ =>
    }
  }

  lemma PublishCreates(st: State, s: SessionId)
    ensures var r := PublishTx(st, s).0;
      && (!Creates(st, s) ==> r.objects == st.objects)
      && (Creates(st, s) ==>
            && IsOpen(st.sessions, s) && st.now < st.sessions[s].expiresAt
            && st.sessions[s].manifest.oid !in st.objects
            && r.objects == st.objects[st.sessions[s].manifest.oid := st.sessions[s].manifest])
  {
    hide EnsureRows, AddReferences, ObjectRows, WellFormed;
  }

  lemma StepKeepsObject(h: Hashes, st: State, step: Step, oid: Oid)
    requires Enabled(st, step) && Inv(h, st) && AllReconstruct(h, st)
    requires VerifiedPublish(h, st, step) && oid in Apply(h, st, step).objects
    ensures Reconstructs(h, Apply(h, st, step).store, Apply(h, st, step).objects[oid])
  {
    hide Enabled, Apply, RowsMatch, Counted, WellFormed, Ids, Creates;
    if oid in st.objects {
      var m := st.objects[oid];
      StepKeepsIntact(h, st, step, m, st.store) by {
        assert Ids(m) <= st.store.Keys;
      }
      ReconstructsAgain(h, st.store, Apply(h, st, step).store, m);
    } else {
      NewObjectPublished(h, st, step, oid);
    }
  }

  /** A creating publication is either verified in the same step (CDC finalize), or comes from an
      acknowledged basic upload under digests that determine bytes. */
  ghost predicate Evidenced(h: Hashes, st: State, step: Step) {
    step.Publish? && Creates(st, step.session) ==>
      || VerifiedPublish(h, st, step)
      || (InjectiveBlake3(h) && exists pieces :: BasicPublish(h, st, step.session, pieces))
  }

  lemma EvidencedIsVerified(h: Hashes, st: State, step: Step)
    requires Inv(h, st) && Evidenced(h, st, step)
    ensures VerifiedPublish(h, st, step)
  {
    if step.Publish? && Creates(st, step.session) && !VerifiedPublish(h, st, step) {
      var pieces :| BasicPublish(h, st, step.session, pieces);
      BasicPublishReconstructs(h, st, step.session, pieces);
    }
  }

  ghost predicate Disciplined(h: Hashes, run: Run) {
    |run.states| == |run.steps| + 1
    && forall i :: 0 <= i < |run.steps| ==> Evidenced(h, run.states[i], run.steps[i])
  }

  /** Whole-run live-bytes safety: with verify-and-publish taken as one step, in every state of every
      run from the empty server every published object's chunks, even those deduplicated and never
      registered, are stored with matching digests and lengths, and together hash to the object id. */
  lemma {:induction false} WholeRunLiveBytes(h: Hashes, run: Run, n: nat)
    requires RunFrom(h, EMPTY, run) && Disciplined(h, run) && n <= |run.steps|
    ensures AllReconstruct(h, run.states[n])
  {
    hide Enabled, Apply, Inv, Evidenced, VerifiedPublish, Reconstructs;
    if n > 0 {
      WholeRunLiveBytes(h, run, n - 1);
      EmptyInv(h);
      RunKeepsInv(h, run, n - 1);
      var st, step := run.states[n - 1], run.steps[n - 1];
      assert Next(h, st, step, run.states[n]);
      EvidencedIsVerified(h, st, step);
      forall oid | oid in run.states[n].objects
        ensures Reconstructs(h, run.states[n].store, run.states[n].objects[oid])
      {
        StepKeepsObject(h, st, step, oid);
      }
    }
  }
}
