/** No lost cleanup: an unreferenced chunk that was once referenced stays in the deletion queue until
    it is referenced again or its row is deleted, and the one interleaving that breaks this. */
module Cleanup {
  import opened Content
  import opened Manifests
  import opened Tables
  import opened Steps
  import opened Invariants
  import opened Schedules
  import opened FinalizeRace

  /** The chunk has a row, and is either referenced or queued for deletion. */
  ghost predicate Tracked(st: State, c: ChunkId) {
    c in st.chunks && (st.chunks[c].refs > 0 || c in st.queue)
  }

  /** A transaction that decrements a count to zero queues the chunk in the same commit. */
  lemma CollectTracks(st: State, oid: Oid, c: ChunkId)
    requires Catalogued(st) && Tracked(st, c)
    ensures Tracked(CollectTx(st, oid), c)
  {
    hide RowsMatch, WellFormed;
    CollectKeepsCatalogue(st, oid);
    var owned := RowsOf(st.objectChunks, oid);
    var r := CollectTx(st, oid);
    if st.chunks[c].refs > 0 && r.chunks[c].refs == 0 {
      assert |Naming(owned, c)| > 0;
      NamingNone(owned, c);
      var k :| k in owned && owned[k].id == c;
      assert c in r.queue;
    }
    NamingDrops(st.objectChunks, oid, c);
  }

  lemma PublishTracks(st: State, s: SessionId, c: ChunkId)
    requires Tracked(st, c)
    ensures Tracked(PublishTx(st, s).0, c)
  {
    hide WellFormed, Naming, ObjectRows, FirstLength;
  }

  /** Tracking survives every step, provider failures and aborts included, unless the row itself is
      deleted or some drain call had read the row as missing before it existed. */
  lemma StepKeepsTracked(h: Hashes, st: State, step: Step, c: ChunkId)
    requires Enabled(st, step) && Inv(h, st) && Tracked(st, c) && c !in st.stale
    ensures var r := Apply(h, st, step);
      && c !in r.stale
      && (c in r.chunks ==> Tracked(r, c))
      && (c !in r.chunks ==> step == DrainCommit(c))
  {
    hide CatalogueSound, SizesBounded, HoldsSound, LocksSound, SessionsSound, PutsSound, AcksSound,
      DigestsMatch, EpochsPast;
    hide BeginTx, RegisterTx, PublishTx, CollectTx, ReclaimTx, StageTx, SubmitTx, PutEffect, Candidates,
      HeldOpen, Named;
    Frame(h, st, step);
    match step {
      case Register(s, index, data) => RegisterKeepsHolds(st, s, index, data);
      case Publish(s) => PublishTracks(st, s, c);
      case Collect(oid) => CollectTracks(st, oid, c);
      case Reclaim(grace) => ReclaimQueuesMore(st, grace);
      case _ =>
    }
  }

  lemma ReclaimQueuesMore(st: State, grace: nat)
    ensures st.queue <= ReclaimTx(st, grace).queue
  {
  }

  ghost predicate RowStays(run: Run, c: ChunkId) {
    forall i :: 0 <= i < |run.states| ==> c in run.states[i].chunks
  }

  /** As long as the row exists, the chunk stays referenced or queued. */
  ghost predicate NeverLost(h: Hashes, st: State, c: ChunkId) {
    forall run: Run :: RunFrom(h, st, run) && RowStays(run, c) ==> Tracked(run.Last(), c)
  }

  lemma {:induction false} RunKeepsTracked(h: Hashes, run: Run, c: ChunkId, n: nat)
    requires IsRun(h, run) && Inv(h, run.states[0]) && n <= |run.steps| && RowStays(run, c)
    requires Tracked(run.states[0], c) && c !in run.states[0].stale
    ensures Tracked(run.states[n], c) && c !in run.states[n].stale
  {
    hide Enabled, Apply, Inv, Tracked;
    if n > 0 {
      RunKeepsTracked(h, run, c, n - 1);
      RunKeepsInv(h, run, n - 1);
      assert Next(h, run.states[n - 1], run.steps[n - 1], run.states[n]);
      StepKeepsTracked(h, run.states[n - 1], run.steps[n - 1], c);
    }
  }

  /** Runs that delete no row keep every row. */
  lemma {:induction false} RowsStay(h: Hashes, run: Run, c: ChunkId, n: nat)
    requires IsRun(h, run) && Inv(h, run.states[0]) && n <= |run.steps| && NoRowDeleted(run)
    requires c in run.states[0].chunks
    ensures c in run.states[n].chunks
  {
    hide Enabled, Apply, CatalogueSound;
    if n > 0 {
      RowsStay(h, run, c, n - 1);
      RunKeepsInv(h, run, n - 1);
      assert Next(h, run.states[n - 1], run.steps[n - 1], run.states[n]);
      StepKeepsRows(h, run.states[n - 1], run.steps[n - 1]);
    }
  }

  /** Two empty snapshots and a long wait make every object due, and every session past its expiry. */
  lemma EverythingDue(h: Hashes, st: State) returns (r: State)
    requires Inv(h, st)
    ensures Forces(h, st, r) && r == st.(now := r.now, epochs := r.epochs, plans := r.plans, tombstones := r.tombstones)
    ensures forall oid :: oid in r.objects ==> Due(r, oid)
    ensures forall s :: s in r.sessions ==> r.sessions[s].expiresAt <= r.now
  {
    hide BeginTx, RegisterTx, PublishTx, CollectTx, ReclaimTx, Forces, Inv, HeldOpen, Named, StageTx, SubmitTx,
      PutEffect, Candidates;
    Stay(h, st);
    var ticked := Go(h, st, st, Tick(1));
    PastEpochs(h, st, ticked);
    var staged := StageEverything(h, ticked);
    Chain(h, st, ticked, staged);
    var deadline := LateTime(staged);
    r := Go(h, st, staged, Tick(deadline));
  }

  /** With a drain standing between its missing-row read and its queue delete, the chunk's references
      can all be collected and its fresh queue entry dropped. */
  lemma StaleReadLoses(h: Hashes, st: State, c: ChunkId) returns (r: State)
    requires Inv(h, st) && c in st.chunks && c in st.stale
    ensures Forces(h, st, r) && c in r.chunks && r.chunks[c].refs == 0 && c !in r.queue
  {
    hide BeginTx, RegisterTx, PublishTx, CollectTx, ReclaimTx, Forces, Inv, HeldOpen, Named, StageTx, SubmitTx,
      PutEffect, Candidates;
    var due := EverythingDue(h, st);
    ForcesInv(h, st, due);
    var emptied := CollectAll(h, due);
    Chain(h, st, due, emptied);
    r := Go(h, st, emptied, DrainDropMissing(c));
  }

  lemma PastEpochs(h: Hashes, before: State, after: State)
    requires Inv(h, before) && after == before.(now := before.now + 1)
    ensures forall e :: e in after.epochs ==> after.epochs[e].completedAt < after.now
    ensures after.tombstones.Keys <= after.objects.Keys
  {
    hide CatalogueSound;
  }

  /** Exactly when cleanup cannot be lost: a referenced or queued chunk stays so under every
      interleaving, for as long as its row exists, if and only if no drain call is between reading
      its row as missing and dropping its queue entry. */
  lemma CleanupExactlyWhenNoStaleRead(h: Hashes, st: State, c: ChunkId)
    requires Inv(h, st) && Tracked(st, c)
    ensures NeverLost(h, st, c) <==> c !in st.stale
  {
    if c in st.stale {
      var r := StaleReadLoses(h, st, c);
      LossIsARun(h, st, r, c);
    } else {
      forall run: Run | RunFrom(h, st, run) && RowStays(run, c) ensures Tracked(run.Last(), c) {
        hide Enabled, Apply, Inv, Tracked;
        RunKeepsTracked(h, run, c, |run.steps|);
      }
    }
  }

  lemma LossIsARun(h: Hashes, st: State, r: State, c: ChunkId)
    requires Inv(h, st) && c in st.chunks && Forces(h, st, r) && !Tracked(r, c)
    ensures !NeverLost(h, st, c)
  {
    hide Enabled, Apply, Inv, Tracked;
    var run: Run :| RunFrom(h, st, run) && run.Last() == r && NoRowDeleted(run);
    forall i | 0 <= i < |run.states| ensures c in run.states[i].chunks {
      RowsStay(h, run, c, i);
    }
    assert RowStays(run, c);
  }

  // ------------------------------------------------------------------ the stale read happens

  lemma Advance(h: Hashes, before: State, st: State, step: Step) returns (after: State)
    requires Reaches(h, before, st) && Enabled(st, step)
    ensures Reaches(h, before, after) && after == Apply(h, st, step)
  {
    hide Enabled, Apply;
    var run: Run :| RunFrom(h, before, run) && run.Last() == st;
    after := Apply(h, st, step);
    assert RunFrom(h, before, Extend(h, run, step));
  }

  /** An abandoned one-byte upload is reclaimed and drained while a second drain call, which listed
      the same queue entry, comes late and finds no row. */
  lemma LateDrainReadsMissing(h: Hashes, m: Manifest) returns (r: State)
    requires m == OneByteManifest(h, m.oid)
    ensures Reaches(h, EMPTY, r)
    ensures r == EMPTY.(now := SESSION_LIFETIME, issued := {0}, puts := r.puts,
                        listed := {h.blake3([0])}, stale := {h.blake3([0])})
  {
    hide BeginTx, PublishTx, CollectTx, Reaches, ReclaimTx;
    var c := h.blake3([0]);
    SingleChunkWellFormed(m);
    NewBegin(EMPTY, 0, m);
    assert Reaches(h, EMPTY, EMPTY) by { Stay(h, EMPTY); ForcesReaches(h, EMPTY, EMPTY); }
    var begun := Advance(h, EMPTY, EMPTY, Begin(0, m));
    var held := Advance(h, EMPTY, begun, Register(0, 0, [0]));
    var late := Advance(h, EMPTY, held, Tick(SESSION_LIFETIME));
    AbandonedReclaimed(late, m, c);
    var reclaimed := Advance(h, EMPTY, late, Reclaim(0));
    r := DrainTwice(h, reclaimed, c);
  }

  lemma NothingHeld(sessions: SessionTable, c: ChunkId)
    ensures !HeldOpen(sessions, {}, c)
  {
  }

  lemma DrainTwice(h: Hashes, st: State, c: ChunkId) returns (r: State)
    requires Reaches(h, EMPTY, st) && st.queue == {c} && c in st.chunks && st.chunks[c].refs == 0
    requires st.listed == {} && st.draining == map[] && st.sessionChunks == {} && st.store == map[]
    ensures Reaches(h, EMPTY, r)
    ensures r == st.(chunks := st.chunks - {c}, queue := {}, listed := {c}, stale := st.stale + {c})
  {
    hide Reaches, HeldOpen, BeginTx, RegisterTx, PublishTx, CollectTx, ReclaimTx;
    var deleted := DeleteBytes(h, st, c);
    var committed := Advance(h, EMPTY, deleted, DrainCommit(c));
    r := Advance(h, EMPTY, committed, DrainReadMissing(c));
    assert r.draining == map[] && r.queue == {};
  }

  lemma DeleteBytes(h: Hashes, st: State, c: ChunkId) returns (r: State)
    requires Reaches(h, EMPTY, st) && st.queue == {c} && c in st.chunks && st.chunks[c].refs == 0
    requires st.listed == {} && st.draining == map[] && st.sessionChunks == {} && st.store == map[]
    ensures Reaches(h, EMPTY, r) && r == st.(listed := {c}, draining := map[c := true])
  {
    hide Reaches, HeldOpen, BeginTx, RegisterTx, PublishTx, CollectTx, ReclaimTx;
    NothingHeld(st.sessions, c);
    var listed := Advance(h, EMPTY, st, DrainList);
    var locked := Advance(h, EMPTY, listed, DrainLock(c));
    r := Advance(h, EMPTY, locked, DrainDelete(c));
    assert r.store == map[] && r.draining == map[c := true];
  }

  lemma AbandonedReclaimed(st: State, m: Manifest, c: ChunkId)
    requires st.sessions == map[0 := Session(m, Open, st.now)] && st.sessionChunks == {(0, c)}
    requires st.chunks == map[c := ChunkRow(1, 0)] && st.queue == {}
    ensures ReclaimTx(st, 0) == st.(sessions := map[], sessionChunks := {}, queue := {c})
  {
    var expired := ExpireAll(st.sessions, st.now);
    assert !IsOpen(expired, 0);
    var removed := Removable(expired, st.now, 0);
    assert removed == {0};
    assert (0, c) in st.sessionChunks;
    assert Abandoned(st.chunks, expired, st.sessionChunks, removed) == {c};
    assert expired - removed == map[];
    assert Released(st.sessionChunks, removed) == {};
  }

  /** The lost-cleanup situation is reachable from the empty server, for every pair of hash functions:
      after the late read the chunk is uploaded again and published, and its next deletion can be
      forgotten. */
  lemma CleanupCanBeLost(h: Hashes) returns (st: State, c: ChunkId)
    ensures Reachable(h, st) && c in st.chunks && st.chunks[c].refs > 0
    ensures !NeverLost(h, st, c)
  {
    hide Reaches, NeverLost, BeginTx, CollectTx, ReclaimTx, Inv, Apply, Enabled;
    c := h.blake3([0]);
    var m := OneByteManifest(h, Oid(0));
    var late := LateDrainReadsMissing(h, m);
    st := PublishAgain(h, late, m);
    assert Inv(h, st) by { ReachableInv(h, st); }
    CleanupExactlyWhenNoStaleRead(h, st, c);
  }

  lemma PublishAgain(h: Hashes, st: State, m: Manifest) returns (r: State)
    requires m == OneByteManifest(h, m.oid) && Reaches(h, EMPTY, st)
    requires st == EMPTY.(now := SESSION_LIFETIME, issued := {0}, puts := st.puts,
                          listed := {h.blake3([0])}, stale := {h.blake3([0])})
    ensures Reaches(h, EMPTY, r) && Tracked(r, h.blake3([0])) && r.chunks[h.blake3([0])].refs > 0
    ensures h.blake3([0]) in r.stale
  {
    hide Reaches, BeginTx, CollectTx, ReclaimTx;
    SingleChunkWellFormed(m);
    NewBegin(st, 1, m);
    var begun := Advance(h, EMPTY, st, Begin(1, m));
    PublishesOneByte(h, begun, m);
    r := Advance(h, EMPTY, begun, Publish(1));
  }

  lemma PublishesOneByte(h: Hashes, st: State, m: Manifest)
    requires m == OneByteManifest(h, m.oid) && WellFormed(m)
    requires st.chunks == map[] && st.objects == map[] && st.draining == map[]
    requires 1 in st.sessions && st.sessions[1] == Session(m, Open, st.now + SESSION_LIFETIME)
    ensures Enabled(st, Publish(1))
    ensures var r := PublishTx(st, 1).0;
      h.blake3([0]) in r.chunks && r.chunks[h.blake3([0])].refs > 0
  {
    hide WellFormed;
    var c := h.blake3([0]);
    var added := ObjectRows(m.oid, m);
    assert m.chunks[0].id in Ids(m);
    assert (m.oid, 0) in added && added[(m.oid, 0)].id == c;
    NamingNone(added, c);
  }
}
