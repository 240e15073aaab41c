/** Registrations of finalized sessions: they outlive everything, and keep the drain from ever succeeding. */
module StuckDrains {
  import opened Content
  import opened Manifests
  import opened Tables
  import opened Steps
  import opened Invariants
  import opened LiveBytes
  import opened Schedules
  import opened FinalizeRace
  import opened Cleanup
  import opened Maintenance
  import opened Publications
  import opened Servers

  /** A finalized session has the chunk registered. */
  ghost predicate Pins(sessions: SessionTable, held: HoldTable, c: ChunkId) {
    exists s :: (s, c) in held && s in sessions && sessions[s].state == SessionState.Finalized
  }

  ghost predicate Pinned(st: State, c: ChunkId) {
    Pins(st.sessions, st.sessionChunks, c)
  }

  lemma StepKeepsPinned(h: Hashes, st: State, step: Step, c: ChunkId)
    requires Enabled(st, step) && Inv(h, st) && Pinned(st, c)
    ensures Pinned(Apply(h, st, step), c)
  {
    hide Enabled, Apply, CatalogueSound, WellFormed;
    StepEvolvesSessions(h, st, step);
    var s :| (s, c) in st.sessionChunks && s in st.sessions && st.sessions[s].state == SessionState.Finalized;
    assert s in Apply(h, st, step).sessions;
  }

  lemma PinnedRowStays(h: Hashes, st: State, c: ChunkId)
    requires Inv(h, st) && Pinned(st, c)
    ensures c in st.chunks && Named(st.sessionChunks, c) && !Enabled(st, DrainCommit(c))
  {
    hide CatalogueSound;
  }

  /** Once a finalized session holds a chunk, in every later state some finalized session holds it, its row
      exists, and no drain can commit its deletion. */
  lemma {:induction false} PinnedForever(h: Hashes, run: Run, i: nat, n: nat, c: ChunkId)
    requires IsRun(h, run) && Inv(h, run.states[0]) && i <= n <= |run.steps| && Pinned(run.states[i], c)
    ensures Pinned(run.states[n], c) && c in run.states[n].chunks && !Enabled(run.states[n], DrainCommit(c))
    decreases n - i
  {
    hide Enabled, Apply, Inv, Pinned;
    RunKeepsInv(h, run, n);
    if i < n {
      PinnedForever(h, run, i, n - 1, c);
      RunKeepsInv(h, run, n - 1);
      assert Next(h, run.states[n - 1], run.steps[n - 1], run.states[n]);
      StepKeepsPinned(h, run.states[n - 1], run.steps[n - 1], c);
    }
    PinnedRowStays(h, run.states[n], c);
  }

  // ------------------------------------------------------------------ exactly when a row can go

  /** Some interleaving removes the chunk's row. */
  ghost predicate CanGo(h: Hashes, st: State, c: ChunkId) {
    exists later: State :: Reaches(h, st, later) && c !in later.chunks
  }

  /** With nothing referenced and every session past its expiry, reclaiming leaves only finalized holders. */
  lemma ReclaimFrees(st: State, t: SessionId, c: ChunkId)
    requires c in st.chunks && st.chunks[c].refs == 0 && !Pinned(st, c)
    requires forall s, x :: (s, x) in st.sessionChunks ==> s in st.sessions
    requires t in st.sessions && (t, c) in st.sessionChunks
    requires forall x :: x in st.sessions ==> st.sessions[x].expiresAt <= st.now
    ensures var r := ReclaimTx(st, 0);
      c in r.queue && !Named(r.sessionChunks, c) && !HeldOpen(r.sessions, r.sessionChunks, c)
  {
    var expired := ExpireAll(st.sessions, st.now);
    var removed := Removable(expired, st.now, 0);
    assert forall x :: !IsOpen(expired, x);
    assert t in removed && (t, c) in st.sessionChunks;
  }

  /** List, lock and delete: the drain stands right before its commit. */
  lemma DrainReady(h: Hashes, st: State, c: ChunkId) returns (r: State)
    requires st.draining == map[] && c in st.chunks && st.chunks[c].refs == 0 && c in st.queue
    requires !Named(st.sessionChunks, c) && !HeldOpen(st.sessions, st.sessionChunks, c)
    ensures Forces(h, st, r) && Enabled(r, DrainCommit(c))
  {
    hide BeginTx, RegisterTx, PublishTx, CollectTx, ReclaimTx, StageTx, SubmitTx, PutEffect, Candidates, Forces,
      HeldOpen, Named;
    Stay(h, st);
    var listed := Go(h, st, st, DrainList);
    var locked := Go(h, st, listed, DrainLock(c));
    r := Go(h, st, locked, DrainDelete(c));
  }

  lemma ReclaimThenDrain(h: Hashes, st: State, t: SessionId, c: ChunkId) returns (r: State)
    requires Inv(h, st) && st.draining == map[] && c in st.chunks && st.chunks[c].refs == 0 && !Pinned(st, c)
    requires t in st.sessions && (t, c) in st.sessionChunks
    requires forall x :: x in st.sessions ==> st.sessions[x].expiresAt <= st.now
    ensures Forces(h, st, r) && Enabled(r, DrainCommit(c))
  {
    HoldersExist(h, st);
    ReclaimFrees(st, t, c);
    Stay(h, st);
    assert Enabled(st, Reclaim(0)) && Apply(h, st, Reclaim(0)) == ReclaimTx(st, 0);
    hide Inv, Enabled, Apply, ReclaimTx, Forces, HeldOpen, Named, Pinned;
    var reclaimed := Go(h, st, st, Reclaim(0));
    r := DrainReady(h, reclaimed, c);
    Chain(h, st, reclaimed, r);
  }

  lemma HoldersExist(h: Hashes, st: State)
    requires Inv(h, st)
    ensures forall s, x :: (s, x) in st.sessionChunks ==> s in st.sessions
  {
    hide CatalogueSound;
  }

  /** A chunk no finalized session holds: some session registers it, everything expires and is collected, and
      the drain comes to its commit. */
  lemma Unpin(h: Hashes, st: State, c: ChunkId) returns (r: State)
    requires Inv(h, st) && !Pinned(st, c)
    ensures Forces(h, st, r) && Enabled(r, DrainCommit(c))
  {
    hide Inv, Forces, Enabled;
    var unlocked := AbortDrains(h, st);
    ForcesInv(h, st, unlocked);
    var held, t := HoldElsewhere(h, unlocked, c);
    Chain(h, st, unlocked, held);
    ForcesInv(h, st, held);
    SessionIssuedOnly(h, unlocked, t);
    StillUnpinned(unlocked, held, t, c);
    var due := EverythingDue(h, held);
    Chain(h, st, held, due);
    ForcesInv(h, st, due);
    var emptied := CollectAll(h, due);
    Chain(h, st, due, emptied);
    r := ReclaimThenDrain(h, emptied, t, c);
    Chain(h, st, emptied, r);
  }

  lemma SessionIssuedOnly(h: Hashes, st: State, t: SessionId)
    requires Inv(h, st) && t !in st.issued
    ensures t !in st.sessions
  {
    hide CatalogueSound;
  }

  lemma StillUnpinned(before: State, after: State, t: SessionId, c: ChunkId)
    requires !Pinned(before, c) && t !in before.sessions && t in after.sessions && after.sessions[t].state == Open
    requires after.sessions == before.sessions[t := after.sessions[t]]
    requires after.sessionChunks == before.sessionChunks + {(t, c)}
    ensures !Pinned(after, c)
  {
  }

  /** Exactly when a chunk row can ever be removed: in any consistent state, some interleaving removes it if and
      only if no finalized session has it registered. */
  lemma RowCanGoExactlyWhenUnpinned(h: Hashes, st: State, c: ChunkId)
    requires Inv(h, st)
    ensures c in st.chunks ==> (CanGo(h, st, c) <==> !Pinned(st, c))
  {
    hide Inv, Forces, Enabled, Apply, Pinned, Reaches;
    if c in st.chunks {
      if Pinned(st, c) {
        forall later: State | Reaches(h, st, later) ensures c in later.chunks {
          PinnedLater(h, st, later, c);
        }
      } else {
        var ready := Unpin(h, st, c);
        ForcesReaches(h, st, ready);
        var gone := Advance(h, st, ready, DrainCommit(c));
        CommitRemoves(h, ready, c);
      }
    }
  }

  lemma CommitRemoves(h: Hashes, st: State, c: ChunkId)
    requires Enabled(st, DrainCommit(c))
    ensures c !in Apply(h, st, DrainCommit(c)).chunks
  {
  }

  lemma PinnedLater(h: Hashes, st: State, later: State, c: ChunkId)
    requires Inv(h, st) && Pinned(st, c) && Reaches(h, st, later)
    ensures Pinned(later, c) && c in later.chunks
  {
    hide Inv, Enabled, Apply, Pinned;
    var run: Run :| RunFrom(h, st, run) && run.Last() == later;
    PinnedForever(h, run, 0, |run.steps|, c);
  }

  // ------------------------------------------------------------------ the drain fails, again and again

  /** Wherever a run goes on from a tracked, pinned chunk that no late drain has read as missing: whenever the
      chunk is unreferenced and no open session holds it, it is queued, dead, and beyond deletion. */
  lemma PinnedDeadIsStuck(h: Hashes, run: Run, i: nat, n: nat, c: ChunkId)
    requires IsRun(h, run) && Inv(h, run.states[0]) && i <= n <= |run.steps|
    requires Pinned(run.states[i], c) && Tracked(run.states[i], c) && c !in run.states[i].stale
    ensures Dead(run.states[n], c) ==>
      c in DeadQueued(run.states[n]) && forall failing: set<ChunkId> :: !Deletable(run.states[n], failing, c)
  {
    hide Enabled, Apply, Inv, Pinned, Tracked, Dead, Named;
    StuckTracked(h, run, i, n, c);
    PinnedForever(h, run, i, n, c);
    RunKeepsInv(h, run, n);
    PinnedRowStays(h, run.states[n], c);
    DeadTracked(run.states[n], c);
  }

  lemma DeadTracked(st: State, c: ChunkId)
    requires Tracked(st, c)
    ensures Dead(st, c) ==> c in DeadQueued(st)
  {
  }

  lemma {:induction false} StuckTracked(h: Hashes, run: Run, i: nat, n: nat, c: ChunkId)
    requires IsRun(h, run) && Inv(h, run.states[0]) && i <= n <= |run.steps|
    requires Pinned(run.states[i], c) && Tracked(run.states[i], c) && c !in run.states[i].stale
    ensures Tracked(run.states[n], c) && c !in run.states[n].stale
    decreases n - i
  {
    hide Enabled, Apply, Inv, Pinned, Tracked;
    if i < n {
      StuckTracked(h, run, i, n - 1, c);
      RunKeepsInv(h, run, n - 1);
      assert Next(h, run.states[n - 1], run.steps[n - 1], run.states[n]);
      StepKeepsTracked(h, run.states[n - 1], run.steps[n - 1], c);
      PinnedForever(h, run, i, n, c);
    }
  }

  /** Every drain call that finds a pinned chunk dead and queued fails, whatever the provider does, and leaves it
      pinned, dead and queued: so does the next. If it is the only dead one its bytes are gone all the same. */
  method DrainStuck(server: Server, c: ChunkId, failing: set<ChunkId>) returns (ok: bool)
    requires c in DeadQueued(server.View()) && Pinned(server.View(), c)
    modifies server`chunks, server`queue, server`store
    ensures !ok
    ensures c in DeadQueued(server.View()) && Pinned(server.View(), c)
    ensures DeadQueued(old(server.View())) == {c} && c !in failing ==> c !in server.store
  {
    ghost var before := server.View();
    assert Named(before.sessionChunks, c);
    ok := server.DrainChunkQueue(failing);
    assert !Deletable(before, failing, c);
    DrainedStillStuck(before, server.View(), c);
    hide DeadQueued, Dead, KeptQueued, Drained;
    ghost var settled, stop :| StopsAt(before, server.View(), failing, settled, stop);
  }

  lemma DrainedStillStuck(before: State, after: State, c: ChunkId)
    requires Drained(before, after) && c in DeadQueued(before) && Named(before.sessionChunks, c)
    ensures c in DeadQueued(after)
    ensures after.sessions == before.sessions && after.sessionChunks == before.sessionChunks
  {
  }

  // ------------------------------------------------------------------ it happens

  /** The ordinary life of an object, from the empty server and for every pair of hash functions: uploaded with
      registration, published, unreachable in two snapshots, staged and collected. Its chunk is then queued and
      dead, and named by the finalized session: no drain will ever succeed on it. */
  lemma OrdinaryLifeGetsStuck(h: Hashes) returns (st: State, c: ChunkId)
    ensures Reachable(h, st) && c in DeadQueued(st) && Pinned(st, c) && !CanGo(h, st, c)
  {
    hide Forces, Inv, Enabled, Apply, Reaches, CanGo, Pinned, Tracked, PublishTx, WellFormed;
    c := h.blake3([0]);
    EmptyInv(h);
    var m := OneByteManifest(h, Oid(0));
    var uploaded := UploadOneByte(h, m);
    ForcesInv(h, EMPTY, uploaded);
    var published := PublishHeld(h, uploaded, m);
    ForcesInv(h, EMPTY, published);
    var due := EverythingDue(h, published);
    Chain(h, EMPTY, published, due);
    ForcesInv(h, EMPTY, due);
    st := CollectAll(h, due);
    Chain(h, published, due, st);
    Chain(h, EMPTY, published, st);
    ForcesInv(h, EMPTY, st);
    ForcesReaches(h, EMPTY, st);
    TrackedAfter(h, published, st, c);
    TrackedHasRow(st, c);
    FinalizedIsDead(published, st, c);
    PinnedRowStays(h, st, c);
    RowCanGoExactlyWhenUnpinned(h, st, c);
  }

  /** The upload's session publishes its one-byte object and stays as its holder. */
  lemma PublishHeld(h: Hashes, st: State, m: Manifest) returns (r: State)
    requires m == OneByteManifest(h, m.oid) && Inv(h, st) && Forces(h, EMPTY, st)
    requires st.sessions == map[0 := Session(m, Open, SESSION_LIFETIME)] && st.now == 0
    requires st.objects == map[] && st.draining == map[] && st.stale == {}
    requires st.sessionChunks == {(0, h.blake3([0]))}
    ensures Forces(h, EMPTY, r) && Pinned(r, h.blake3([0])) && Tracked(r, h.blake3([0])) && r.stale == {}
    ensures r.sessions.Keys == {0} && r.sessions[0].state == SessionState.Finalized
    ensures r.sessionChunks == {(0, h.blake3([0]))}
  {
    var c := h.blake3([0]);
    hide Inv, Forces, PublishTx, WellFormed, Creates, Enabled, Apply, Ids;
    PublishWouldCreate(h, st, 0);
    r := Go(h, EMPTY, st, Publish(0));
    PublishingApplies(h, st, 0);
    PublishFinalizes(st, 0);
    PublishCreates(st, 0);
    PublishEvolves(st, 0);
    NamedByManifest(m, 0);
    ForcesInv(h, EMPTY, r) by { EmptyInv(h); }
    LiveChunkReferenced(h, r, m.oid, c);
    assert (0, c) in r.sessionChunks;
  }

  lemma PublishingApplies(h: Hashes, st: State, s: SessionId)
    requires Enabled(st, Publish(s))
    ensures Apply(h, st, Publish(s)) == PublishTx(st, s).0
  {
    hide PublishTx;
  }

  lemma TrackedAfter(h: Hashes, st: State, later: State, c: ChunkId)
    requires Inv(h, st) && Tracked(st, c) && c !in st.stale && Forces(h, st, later)
    ensures Tracked(later, c)
  {
    hide Enabled, Apply, Inv, Tracked;
    var run: Run :| RunFrom(h, st, run) && run.Last() == later && NoRowDeleted(run);
    TrackedHasRow(st, c);
    forall i | 0 <= i < |run.states| ensures c in run.states[i].chunks {
      RowsStay(h, run, c, i);
    }
    RunKeepsTracked(h, run, c, |run.steps|);
  }

  lemma TrackedHasRow(st: State, c: ChunkId)
    requires Tracked(st, c)
    ensures c in st.chunks
  {
  }

  lemma FinalizedIsDead(before: State, after: State, c: ChunkId)
    requires before.sessions.Keys == {0} && before.sessions[0].state == SessionState.Finalized
    requires before.sessionChunks == {(0, c)}
    requires after.sessions == before.sessions && after.sessionChunks == before.sessionChunks
    requires Tracked(after, c) && after.chunks[c].refs == 0
    ensures c in DeadQueued(after) && Pinned(after, c)
  {
    assert (0, c) in after.sessionChunks;
  }
}
