/** The window between a CDC finalize's verification and its publication.

    Finalize reads every chunk back, then publishes in a later transaction. Chunks that were already
    stored when the upload began are never registered to the session, so nothing protects them in
    between. The theorem here is exact: a verified, open session can be published safely under every
    interleaving if and only if every chunk of its manifest is registered to it. */
module FinalizeRace {
  import opened Content
  import opened Manifests
  import opened Tables
  import opened Steps
  import opened Invariants
  import opened LiveBytes
  import opened Schedules

  /** Every chunk of the session's manifest is registered to the session. */
  ghost predicate AllRegistered(st: State, s: SessionId)
    requires s in st.sessions
  {
    forall c :: c in Ids(st.sessions[s].manifest) ==> (s, c) in st.sessionChunks
  }

  /** However other requests interleave from here, a publication of the session that creates the
      object finds every chunk in the store. */
  ghost predicate SafeToPublish(h: Hashes, st: State, s: SessionId) {
    forall later: State :: Reaches(h, st, later) && Creates(later, s) && Enabled(later, Publish(s)) ==>
      Ids(later.sessions[s].manifest) <= later.store.Keys
  }

  // ------------------------------------------------------------------ registration suffices

  /** The session as verified, if it still exists. */
  ghost predicate Guarded(st: State, s: SessionId, m: Manifest) {
    s in st.sessions ==>
      && st.sessions[s].manifest == m
      && (IsOpen(st.sessions, s) ==>
            forall c :: c in Ids(m) ==> (s, c) in st.sessionChunks && c in st.store)
  }

  lemma StepKeepsGuard(h: Hashes, st: State, step: Step, s: SessionId, m: Manifest)
    requires Enabled(st, step) && Inv(h, st) && Guarded(st, s, m) && s in st.issued
    ensures Guarded(Apply(h, st, step), s, m) && s in Apply(h, st, step).issued
  {
    hide CatalogueSound, Ids, HeldOpen, BeginTx, RegisterTx, PublishTx, CollectTx, ReclaimTx, Apply;
    var r := Apply(h, st, step);
    Frame(h, st, step);
    StepEvolvesSessions(h, st, step);
    if step.Begin? { BeginStep(h, st, step.drawn, step.manifest); }
    if IsOpen(r.sessions, s) {
      assert IsOpen(st.sessions, s);
      forall c | c in Ids(m) ensures (s, c) in r.sessionChunks && c in r.store {
        HeldBy(st, s, c);
        StepKeepsHeldBytes(h, st, step, c);
      }
    }
  }

  lemma HeldBy(st: State, s: SessionId, c: ChunkId)
    requires (s, c) in st.sessionChunks && IsOpen(st.sessions, s)
    ensures HeldOpen(st.sessions, st.sessionChunks, c)
  {
  }

  lemma {:induction false} RunKeepsGuard(h: Hashes, run: Run, s: SessionId, m: Manifest, n: nat)
    requires IsRun(h, run) && n <= |run.steps| && Inv(h, run.states[0])
    requires Guarded(run.states[0], s, m) && s in run.states[0].issued
    ensures Guarded(run.states[n], s, m) && s in run.states[n].issued
  {
    hide Enabled, Apply, Inv, Guarded;
    if n > 0 {
      RunKeepsGuard(h, run, s, m, n - 1);
      RunKeepsInv(h, run, n - 1);
      assert Next(h, run.states[n - 1], run.steps[n - 1], run.states[n]);
      StepKeepsGuard(h, run.states[n - 1], run.steps[n - 1], s, m);
    }
  }

  lemma RegisteredIsSafe(h: Hashes, st: State, s: SessionId)
    requires Inv(h, st) && Live(st, s) && Ids(st.sessions[s].manifest) <= st.store.Keys
    requires AllRegistered(st, s)
    ensures SafeToPublish(h, st, s)
  {
    forall later: State | Reaches(h, st, later) && Creates(later, s) && Enabled(later, Publish(s))
      ensures Ids(later.sessions[s].manifest) <= later.store.Keys
    {
      RegisteredStaysStored(h, st, s, later);
    }
  }

  lemma RegisteredStaysStored(h: Hashes, st: State, s: SessionId, later: State)
    requires Inv(h, st) && Live(st, s) && Ids(st.sessions[s].manifest) <= st.store.Keys
    requires AllRegistered(st, s) && Reaches(h, st, later) && Creates(later, s)
    ensures later.sessions[s].manifest == st.sessions[s].manifest
    ensures Ids(later.sessions[s].manifest) <= later.store.Keys
  {
    hide Apply, Enabled, Creates, CatalogueSound, Ids;
    var m := st.sessions[s].manifest;
    var run: Run :| RunFrom(h, st, run) && run.Last() == later;
    RunKeepsGuard(h, run, s, m, |run.steps|);
    PublishCreates(later, s);
  }

  // ------------------------------------------------------------------ registration is necessary

  lemma SingleChunkWellFormed(m: Manifest)
    requires |m.chunks| == 1 && m.chunks[0].offset == 0
    requires 1 <= m.chunks[0].length == m.size <= m.profile.Maximum()
    ensures WellFormed(m)
  {
    OneChunkExactly(m);
  }

  /** A manifest of one chunk with a chosen recorded length, for an object no session is about. */
  lemma DecoyManifest(st: State, c: ChunkId) returns (m: Manifest)
    requires SizesBounded(st.chunks)
    ensures WellFormed(m) && |m.chunks| == 1 && m.chunks[0].id == c
    ensures SizeAgrees(st, m.chunks[0])
    ensures forall s :: s in st.sessions ==> st.sessions[s].manifest.oid != m.oid
  {
    var size := if c in st.chunks then st.chunks[c].size else 1;
    var taken := set s | s in st.sessions :: st.sessions[s].manifest.oid.digest;
    var digest := FreshNat(taken);
    m := Manifest(FastCdcV1, Oid(digest), size, [Descriptor(c, 0, size)]);
    SingleChunkWellFormed(m);
    forall s | s in st.sessions ensures st.sessions[s].manifest.oid != m.oid {
      assert st.sessions[s].manifest.oid.digest in taken;
    }
  }

  /** A begin for an object no session is about just adds an open session. */
  lemma NewBegin(st: State, drawn: SessionId, m: Manifest)
    requires WellFormed(m) && forall s :: s in st.sessions ==> st.sessions[s].manifest.oid != m.oid
    ensures BeginTx(st, drawn, m).0 == st.(
      sessions := st.sessions[drawn := Session(m, Open, st.now + SESSION_LIFETIME)],
      issued := st.issued + {drawn})
  {
    hide WellFormed;
    var live := ExpireStale(st.sessions, st.now, m.oid);
    assert live == st.sessions;
    assert forall s :: !IsOpenFor(live, s, m.oid);
  }

  /** Any client can make a second session hold any chunk. */
  lemma HoldElsewhere(h: Hashes, st: State, c: ChunkId) returns (r: State, t: SessionId)
    requires Inv(h, st) && st.draining == map[]
    ensures Forces(h, st, r) && t !in st.issued
    ensures t in r.sessions && r.sessions[t].state == Open
    ensures r == st.(sessions := st.sessions[t := r.sessions[t]], issued := r.issued, puts := r.puts,
                     chunks := r.chunks, sessionChunks := st.sessionChunks + {(t, c)})
    ensures c in r.chunks
  {
    hide CatalogueSound, WellFormed, BeginTx, PublishTx, CollectTx, ReclaimTx, Forces;
    var m := DecoyManifest(st, c);
    t := FreshNat(st.issued);
    Stay(h, st);
    NewBegin(st, t, m);
    var begun := Go(h, st, st, Begin(t, m));
    var data := seq(m.chunks[0].length, _ => 0 as byte);
    r := Go(h, st, begun, Register(t, 0, data));
  }

  /** The watched session is live, about `m`, and does not hold `c`. */
  ghost predicate Watched(st: State, s: SessionId, m: Manifest, c: ChunkId) {
    Live(st, s) && st.sessions[s].manifest == m && (s, c) !in st.sessionChunks
  }

  /** With the catalogue empty and every other session past its expiry, reclaiming queues a chunk
      that another session held. */
  lemma ReclaimQueues(st: State, s: SessionId, t: SessionId, c: ChunkId)
    requires c in st.chunks && st.chunks[c].refs == 0
    requires Live(st, s) && (s, c) !in st.sessionChunks
    requires IsOpen(st.sessions, t) && (t, c) in st.sessionChunks
    requires forall x :: x in st.sessions && x != s ==> st.sessions[x].expiresAt <= st.now
    ensures var r := ReclaimTx(st, 0);
      && c in r.queue && s in r.sessions && r.sessions[s] == st.sessions[s]
      && !HeldOpen(r.sessions, r.sessionChunks, c)
      && r.sessionChunks <= st.sessionChunks
  {
    var expired := ExpireAll(st.sessions, st.now);
    var removed := Removable(expired, st.now, 0);
    assert forall x :: IsOpen(expired, x) ==> x == s;
    assert !HeldOpen(expired, st.sessionChunks, c);
    assert t in removed && (t, c) in st.sessionChunks;
  }

  /** Reclaim, list, lock, delete, abort: the bytes are gone and the watched session is untouched. */
  lemma Evict(h: Hashes, st: State, s: SessionId, t: SessionId, m: Manifest, c: ChunkId) returns (r: State)
    requires st.draining == map[] && c in st.chunks && st.chunks[c].refs == 0
    requires Watched(st, s, m, c)
    requires IsOpen(st.sessions, t) && (t, c) in st.sessionChunks
    requires forall x :: x in st.sessions && x != s ==> st.sessions[x].expiresAt <= st.now
    ensures Forces(h, st, r) && Watched(r, s, m, c)
    ensures r.objects == st.objects && r.draining == map[] && c !in r.store
  {
    hide BeginTx, RegisterTx, PublishTx, CollectTx, ReclaimTx, StageTx, SubmitTx, PutEffect, Candidates, Forces,
      HeldOpen, Named;
    Stay(h, st);
    ReclaimQueues(st, s, t, c);
    var reclaimed := Go(h, st, st, Reclaim(0));
    r := DeleteAndAbort(h, reclaimed, c);
    Chain(h, st, reclaimed, r);
  }

  /** A drain deletes the bytes of a queued, unreferenced, unheld chunk and aborts. */
  lemma DeleteAndAbort(h: Hashes, st: State, c: ChunkId) returns (r: State)
    requires st.draining == map[] && c in st.queue && c in st.chunks && st.chunks[c].refs == 0
    requires !HeldOpen(st.sessions, st.sessionChunks, c)
    ensures Forces(h, st, r)
    ensures r == st.(listed := r.listed, store := st.store - {c})
  {
    hide BeginTx, RegisterTx, PublishTx, CollectTx, ReclaimTx, StageTx, SubmitTx, PutEffect, Candidates, Forces,
      HeldOpen, Named;
    Stay(h, st);
    var listed := Go(h, st, st, DrainList);
    var locked := Go(h, st, listed, DrainLock(c));
    var deleted := Go(h, st, locked, DrainDelete(c));
    r := Go(h, st, deleted, DrainAbort(c));
    assert r.draining == map[];
  }

  /** A chunk the session does not hold can be lost while the session stays open: objects that
      reference it can be collected, sessions that hold it can expire, and the drain then deletes
      its bytes. */
  lemma LoseChunk(h: Hashes, st: State, s: SessionId, c: ChunkId) returns (r: State)
    requires Inv(h, st) && Live(st, s) && (s, c) !in st.sessionChunks
    ensures Forces(h, st, r) && Watched(r, s, st.sessions[s].manifest, c)
    ensures r.objects == map[] && r.draining == map[] && c !in r.store
  {
    hide Inv, Forces, Slept;
    var m := st.sessions[s].manifest;
    var staged, t := PrepareLoss(h, st, s, c);
    ForcesInv(h, st, staged);
    var deadline := LateTime(staged);
    var slept := KeepAlive(h, staged, s, deadline);
    Chain(h, st, staged, slept);
    ForcesInv(h, st, slept);
    var due := DueAfterSleep(h, staged, slept, s, t, m, c, deadline);
    Chain(h, st, slept, due);
    r := Evict(h, due, s, t, m, c);
    Chain(h, st, due, r);
  }

  /** Unlock, stage every object, and let a second session hold the chunk. */
  lemma PrepareLoss(h: Hashes, st: State, s: SessionId, c: ChunkId) returns (r: State, t: SessionId)
    requires Inv(h, st) && Live(st, s) && (s, c) !in st.sessionChunks
    ensures Forces(h, st, r) && Watched(r, s, st.sessions[s].manifest, c)
    ensures r.draining == map[] && r.tombstones.Keys == r.objects.Keys
    ensures t != s && IsOpen(r.sessions, t) && (t, c) in r.sessionChunks && c in r.chunks
  {
    hide Forces, Inv;
    var unlocked := AbortDrains(h, st);
    ForcesInv(h, st, unlocked);
    var slept := KeepAlive(h, unlocked, s, 1);
    Chain(h, st, unlocked, slept);
    ForcesInv(h, st, slept);
    EpochsBefore(h, unlocked, slept);
    var staged := StageEverything(h, slept);
    Chain(h, st, slept, staged);
    ForcesInv(h, st, staged);
    r, t := HoldElsewhere(h, staged, c);
    Chain(h, st, staged, r);
    SessionIssued(h, staged, s);
  }

  lemma EpochsBefore(h: Hashes, before: State, after: State)
    requires Inv(h, before) && Inv(h, after) && after.epochs == before.epochs && after.now == before.now + 1
    ensures forall e :: e in after.epochs ==> after.epochs[e].completedAt < after.now
    ensures after.tombstones.Keys <= after.objects.Keys
  {
    hide CatalogueSound;
  }

  lemma SessionIssued(h: Hashes, st: State, s: SessionId)
    requires Inv(h, st) && s in st.sessions
    ensures s in st.issued
  {
    hide CatalogueSound;
  }

  /** Once every deadline has passed, collect everything. */
  lemma DueAfterSleep(h: Hashes, staged: State, slept: State, s: SessionId, t: SessionId,
                      m: Manifest, c: ChunkId, deadline: nat) returns (r: State)
    requires Inv(h, slept) && Slept(staged, slept, s, deadline) && Watched(staged, s, m, c)
    requires staged.draining == map[] && staged.tombstones.Keys == staged.objects.Keys
    requires t != s && IsOpen(staged.sessions, t) && (t, c) in staged.sessionChunks && c in staged.chunks
    requires forall x :: x in staged.sessions ==> staged.sessions[x].expiresAt <= deadline
    requires forall oid :: oid in staged.tombstones ==> staged.tombstones[oid] <= deadline
    ensures Forces(h, slept, r) && Watched(r, s, m, c) && r.objects == map[] && r.draining == map[]
    ensures c in r.chunks && r.chunks[c].refs == 0
    ensures IsOpen(r.sessions, t) && (t, c) in r.sessionChunks
    ensures forall x :: x in r.sessions && x != s ==> r.sessions[x].expiresAt <= r.now
  {
    hide Inv, Forces;
    r := CollectAll(h, slept);
  }

  /** Exactly when a verified finalize is safe: in any consistent state, for a live session whose
      chunks are all stored, no interleaving can publish it with a byte missing if and only if every
      chunk of its manifest is registered to it. */
  lemma SafeExactlyWhenRegistered(h: Hashes, st: State, s: SessionId)
    requires Inv(h, st) && Live(st, s) && Ids(st.sessions[s].manifest) <= st.store.Keys
    ensures SafeToPublish(h, st, s) <==> AllRegistered(st, s)
  {
    hide Inv, Forces, Reaches, Enabled, Ids;
    if AllRegistered(st, s) {
      RegisteredIsSafe(h, st, s);
    } else {
      var c :| c in Ids(st.sessions[s].manifest) && (s, c) !in st.sessionChunks;
      var later := LoseChunk(h, st, s, c);
      ForcesInv(h, st, later);
      ForcesReaches(h, st, later);
      PublishWouldCreate(h, later, s);
    }
  }

  lemma PublishWouldCreate(h: Hashes, st: State, s: SessionId)
    requires Inv(h, st) && Live(st, s) && st.objects == map[] && st.draining == map[]
    ensures Creates(st, s) && Enabled(st, Publish(s))
  {
    hide CatalogueSound, EnsureRows, AddReferences, ObjectRows;
  }

  // ------------------------------------------------------------------ the race happens

  function OneByteManifest(h: Hashes, oid: Oid): (m: Manifest) {
    Manifest(FastCdcV1, oid, 1, [Descriptor(h.blake3([0]), 0, 1)])
  }

  /** The unsafe situation is reachable from the empty server, for every pair of hash functions: one
      client uploads a one-byte chunk for some object, a second client begins an object with the same
      chunk and is told nothing is missing. Its finalize verifies, and can still publish an object
      whose chunk is gone. */
  lemma DeduplicatedFinalizeCanLoseBytes(h: Hashes) returns (st: State, s: SessionId)
    ensures Reachable(h, st) && Live(st, s)
    ensures Reconstructs(h, st.store, st.sessions[s].manifest)
    ensures !SafeToPublish(h, st, s)
  {
    hide Forces, Reaches, SafeToPublish;
    var other := Oid(h.sha256([0]).digest + 1);
    var one, two := OneByteManifest(h, other), OneByteManifest(h, h.sha256([0]));
    var uploaded := UploadOneByte(h, one);
    ForcesInv(h, EMPTY, uploaded) by { EmptyInv(h); }
    s := 1;
    SingleChunkWellFormed(two);
    NewBegin(uploaded, 1, two);
    st := Go(h, EMPTY, uploaded, Begin(1, two)) by { hide BeginTx; }
    assert st == BeginTx(uploaded, 1, two).0;
    SecondClientVerifies(h, uploaded, st, two);
    ForcesInv(h, EMPTY, st) by { EmptyInv(h); }
    ForcesReaches(h, EMPTY, st);
    SafeExactlyWhenRegistered(h, st, s);
  }

  /** The first client: begin, register, put. */
  lemma UploadOneByte(h: Hashes, m: Manifest) returns (r: State)
    requires m == OneByteManifest(h, m.oid)
    ensures Forces(h, EMPTY, r)
    ensures r.sessions == map[0 := Session(m, Open, SESSION_LIFETIME)] && r.issued == {0} && r.now == 0
    ensures r == EMPTY.(sessions := r.sessions, issued := {0}, puts := r.puts, acked := r.acked,
                        sessionChunks := r.sessionChunks, store := r.store,
                        chunks := map[h.blake3([0]) := ChunkRow(1, 0)])
    ensures r.sessionChunks == {(0, h.blake3([0]))}
    ensures r.store == map[h.blake3([0]) := [0]]
  {
    hide PublishTx, CollectTx, ReclaimTx, BeginTx, Forces;
    SingleChunkWellFormed(m);
    Stay(h, EMPTY);
    NewBegin(EMPTY, 0, m);
    var begun := Go(h, EMPTY, EMPTY, Begin(0, m));
    var registered := Go(h, EMPTY, begun, Register(0, 0, [0]));
    r := Go(h, EMPTY, registered, Put(PendingPut(0, h.blake3([0]), [0])));
  }

  lemma SecondClientVerifies(h: Hashes, before: State, st: State, m: Manifest)
    requires m == OneByteManifest(h, h.sha256([0]))
    requires before.store == map[h.blake3([0]) := [0]] && before.sessionChunks == {(0, h.blake3([0]))}
    requires st == before.(sessions := before.sessions[1 := Session(m, Open, before.now + SESSION_LIFETIME)],
                           issued := before.issued + {1})
    ensures Live(st, 1) && st.sessions[1].manifest == m && !AllRegistered(st, 1)
    ensures Reconstructs(h, st.store, m)
  {
    assert m.chunks[0].id in Ids(m);
    assert Stored(st.store, m) == [[0]];
    assert Concat([[0 as byte]]) == [0] by {
      assert [[0 as byte]][..0] == [];
      ConcatSnoc([], [0]);
    }
  }
}
