/** Unreferenced chunk rows that no cleanup will find: neither queued nor held by a session that can be reclaimed. */
module Orphans {
  import opened Content
  import opened Manifests
  import opened Tables
  import opened Steps
  import opened Invariants
  import opened Maintenance
  import opened Publications
  import opened StuckDrains

  /** An unreferenced row is queued for deletion or registered to some session. */
  ghost predicate Accounted(st: State, c: ChunkId) {
    c in st.chunks && st.chunks[c].refs == 0 ==> c in st.queue || Named(st.sessionChunks, c)
  }

  /** A finalize of an open session whose object already exists: rows are inserted, none is referenced. */
  ghost predicate FindsExisting(st: State, s: SessionId) {
    && Finalizable(st, s) && st.sessions[s].state == Open
    && st.sessions[s].manifest.oid in st.objects
  }

  /** The two steps that lose track of a row: a finalize that finds the object existing inserts a row nobody holds,
      and a drain that had read the row as missing drops the queue entry of one that exists again. */
  ghost predicate LosesTrack(st: State, step: Step, c: ChunkId) {
    match step
    case Publish(s) =>
      FindsExisting(st, s) && c in Ids(st.sessions[s].manifest) && c !in st.chunks && c !in st.queue
    case DrainDropMissing(d) =>
      d == c && c in st.chunks && st.chunks[c].refs == 0 && !Named(st.sessionChunks, c)
    case _ => false
  }

  lemma RegisterAccounts(st: State, s: SessionId, i: nat, data: Bytes, c: ChunkId)
    requires Uploadable(st, s, i, data) && Accounted(st, c)
    ensures Accounted(RegisterTx(st, s, i, data), c)
  {
    var r := RegisterTx(st, s, i, data);
    RegisterHolds(st, s, i, data, c);
    hide RegisterTx, Uploadable;
    if Named(st.sessionChunks, c) {
      var t :| (t, c) in st.sessionChunks;
      assert (t, c) in r.sessionChunks;
    }
  }

  lemma RegisterHolds(st: State, s: SessionId, i: nat, data: Bytes, c: ChunkId)
    requires Uploadable(st, s, i, data)
    ensures var r := RegisterTx(st, s, i, data);
      && r.queue == st.queue && st.sessionChunks <= r.sessionChunks
      && (c in r.chunks ==> (c in st.chunks && r.chunks[c] == st.chunks[c]) || (s, c) in r.sessionChunks)
  {
    hide SizeAgrees;
  }

  lemma PublishAccounts(h: Hashes, st: State, s: SessionId, c: ChunkId)
    requires Inv(h, st) && Accounted(st, c)
    ensures Accounted(PublishTx(st, s).0, c) <==> !LosesTrack(st, Publish(s), c)
  {
    var r := PublishTx(st, s).0;
    CountsNonNegative(h, st, c);
    if Creates(st, s) {
      CreationReferences(st, s, c);
    } else if FindsExisting(st, s) {
      SessionIsWellFormed(h, st, s);
      ExistingInserts(st, s);
      if c !in st.chunks {
        UnknownIsUnheld(h, st, c);
      }
    } else {
      NothingPublished(h, st, s);
    }
    hide PublishTx, Inv, Creates, Named;
  }

  /** A creation references every chunk it names, and leaves the other rows alone. */
  lemma CreationReferences(st: State, s: SessionId, c: ChunkId)
    requires Creates(st, s) && (c in st.chunks ==> st.chunks[c].refs >= 0)
    ensures !FindsExisting(st, s)
    ensures var r, named := PublishTx(st, s).0, c in Ids(st.sessions[s].manifest);
      && r.queue == st.queue && r.sessionChunks == st.sessionChunks
      && (named ==> c in r.chunks && r.chunks[c].refs > 0)
      && (!named ==> (c in r.chunks <==> c in st.chunks) && (c in r.chunks ==> r.chunks[c].refs == st.chunks[c].refs))
  {
    CreatedParts(st, s);
    NamedByCreation(st.sessions[s].manifest, c);
    hide PublishTx, WellFormed, FirstLength, ObjectRows, Naming, Ids;
  }

  lemma NamedByCreation(m: Manifest, c: ChunkId)
    ensures |Naming(ObjectRows(m.oid, m), c)| > 0 <==> c in Ids(m)
  {
    var added := ObjectRows(m.oid, m);
    NamingNone(added, c);
    if c in Ids(m) {
      var i :| 0 <= i < |m.chunks| && m.chunks[i].id == c;
      assert (m.oid, i) in added && added[(m.oid, i)].id == c;
    } else {
      assert forall k :: k in added ==> added[k].id in Ids(m);
    }
  }

  lemma ExistingInserts(st: State, s: SessionId)
    requires FindsExisting(st, s) && WellFormed(st.sessions[s].manifest)
    ensures var r := PublishTx(st, s).0;
      && r.queue == st.queue && r.sessionChunks == st.sessionChunks
      && (forall c :: c in r.chunks <==> c in st.chunks || c in Ids(st.sessions[s].manifest))
      && (forall c :: c in r.chunks ==> r.chunks[c].refs == if c in st.chunks then st.chunks[c].refs else 0)
  {
    hide WellFormed, FirstLength;
  }

  lemma NothingPublished(h: Hashes, st: State, s: SessionId)
    requires Inv(h, st) && !Creates(st, s) && !FindsExisting(st, s)
    ensures PublishTx(st, s).0 == st
  {
    hide CatalogueSound, EnsureRows, AddReferences, ObjectRows;
  }

  lemma UnknownIsUnheld(h: Hashes, st: State, c: ChunkId)
    requires Inv(h, st) && c !in st.chunks
    ensures !Named(st.sessionChunks, c)
  {
    hide CatalogueSound;
  }

  lemma CountsNonNegative(h: Hashes, st: State, c: ChunkId)
    requires Inv(h, st)
    ensures c in st.chunks ==> st.chunks[c].refs >= 0
  {
    hide RowsMatch, WellFormed;
  }

  lemma SessionIsWellFormed(h: Hashes, st: State, s: SessionId)
    requires Inv(h, st) && s in st.sessions
    ensures WellFormed(st.sessions[s].manifest)
  {
    hide CatalogueSound;
  }

  /** A collection queues every row whose last reference it takes. */
  lemma CollectAccounts(st: State, oid: Oid, c: ChunkId)
    requires Catalogued(st) && Accounted(st, c)
    ensures Accounted(CollectTx(st, oid), c)
  {
    hide CatalogueSound, CollectTx;
    PassKeepsSizes(st, oid);
    PassQueues(st, oid);
    CollectKeepsHolds(st, oid);
  }

  lemma CollectKeepsHolds(st: State, oid: Oid)
    ensures CollectTx(st, oid).sessionChunks == st.sessionChunks
  {
    hide DropReferences, RowsOf;
  }

  /** A reclamation queues every unreferenced row whose last holder it removes. */
  lemma ReclaimAccounts(st: State, grace: nat, c: ChunkId)
    requires Accounted(st, c)
    ensures Accounted(ReclaimTx(st, grace), c)
  {
    var expired := ExpireAll(st.sessions, st.now);
    var removed := Removable(expired, st.now, grace);
    var r := ReclaimTx(st, grace);
    if c in st.chunks && st.chunks[c].refs == 0 && c !in st.queue {
      var s :| (s, c) in st.sessionChunks;
      if s in removed {
        if HeldOpen(expired, st.sessionChunks, c) {
          var t :| (t, c) in st.sessionChunks && IsOpen(expired, t);
          assert t !in removed && (t, c) in r.sessionChunks;
        } else {
          assert c in Abandoned(st.chunks, expired, st.sessionChunks, removed);
        }
      } else {
        assert (s, c) in r.sessionChunks;
      }
    }
  }

  /** Exactly the two steps: in any consistent state, a step loses track of an accounted row if and only if it is a
      finalize that finds its object existing and inserts the row unheld, or a late drain that drops the entry. */
  lemma StepAccounts(h: Hashes, st: State, step: Step, c: ChunkId)
    requires Enabled(st, step) && Inv(h, st) && Accounted(st, c)
    ensures Accounted(Apply(h, st, step), c) <==> !LosesTrack(st, step, c)
  {
    assert Catalogued(st);
    if step.Register? || step.Publish? || step.Collect? || step.Reclaim? {
      hide Inv, RegisterTx, PublishTx, CollectTx, ReclaimTx, Named, Creates, Uploadable, Catalogued,
        FindsExisting, Accounted;
      match step {
        case Register(s, i, data) => RegisterAccounts(st, s, i, data, c);
        case Publish(s) => PublishAccounts(h, st, s, c);
        case Collect(oid) => CollectAccounts(st, oid, c);
        case Reclaim(grace) => ReclaimAccounts(st, grace, c);
      }
    } else {
      hide Inv, Catalogued;
      OtherStepAccounts(h, st, step, c);
    }
  }

  lemma OtherStepAccounts(h: Hashes, st: State, step: Step, c: ChunkId)
    requires Enabled(st, step) && Accounted(st, c)
    requires !step.Register? && !step.Publish? && !step.Collect? && !step.Reclaim?
    ensures Accounted(Apply(h, st, step), c) <==> !LosesTrack(st, step, c)
  {
    hide Named, HeldOpen;
    if step.DrainReferenced? || step.DrainDropMissing? || step.DrainCommit? {
      hide BeginTx, StageTx, SubmitTx, PutEffect, Candidates;
    } else {
      Frame(h, st, step);
      hide Enabled, Apply;
    }
  }

  ghost predicate LosesTrackAt(run: Run, i: nat, c: ChunkId)
    requires i < |run.steps| < |run.states|
  {
    LosesTrack(run.states[i], run.steps[i], c)
  }

  lemma {:induction false} UnaccountedOrigin(h: Hashes, run: Run, n: nat, c: ChunkId) returns (i: nat)
    requires RunFrom(h, EMPTY, run) && n <= |run.steps| && !Accounted(run.states[n], c)
    ensures i < n && LosesTrackAt(run, i, c)
  {
    hide Enabled, Apply, Inv, LosesTrack, Named;
    EmptyInv(h);
    RunKeepsInv(h, run, n - 1);
    assert Next(h, run.states[n - 1], run.steps[n - 1], run.states[n]);
    if Accounted(run.states[n - 1], c) {
      StepAccounts(h, run.states[n - 1], run.steps[n - 1], c);
      i := n - 1;
    } else {
      i := UnaccountedOrigin(h, run, n - 1, c);
    }
  }

  /** Unreferenced, not queued, and held by no session that a reclamation could remove. */
  ghost predicate LeftBehind(st: State, c: ChunkId) {
    && c in st.chunks && st.chunks[c].refs == 0 && c !in st.queue
    && forall s :: (s, c) in st.sessionChunks && s in st.sessions ==>
         st.sessions[s].state == SessionState.Finalized
  }

  /** Which rows are left behind, in every state of every run: those a finalized session pins, for ever, and those of
      which one of the two steps lost track. */
  lemma LeftBehindOrigin(h: Hashes, run: Run, n: nat, c: ChunkId)
    requires RunFrom(h, EMPTY, run) && n <= |run.steps| && LeftBehind(run.states[n], c)
    ensures Pinned(run.states[n], c) || exists i: nat :: i < n && LosesTrackAt(run, i, c)
  {
    hide Enabled, Apply, Inv, LosesTrack;
    EmptyInv(h);
    RunKeepsInv(h, run, n);
    HoldersExist(h, run.states[n]);
    if !Accounted(run.states[n], c) {
      var i := UnaccountedOrigin(h, run, n, c);
    } else {
      var s :| (s, c) in run.states[n].sessionChunks;
      assert Pinned(run.states[n], c);
    }
  }

  /** The first kind arises whenever a session with a registered chunk that nothing references is finalized and its
      object turns out to exist: the row is left behind, and can never go. */
  lemma ExistingFinalizePins(h: Hashes, st: State, s: SessionId, c: ChunkId)
    requires Inv(h, st) && FindsExisting(st, s) && Enabled(st, Publish(s)) && (s, c) in st.sessionChunks
    requires st.chunks[c].refs == 0 && c !in st.queue
    requires forall t :: (t, c) in st.sessionChunks && t in st.sessions && t != s ==>
      st.sessions[t].state == SessionState.Finalized
    ensures var r := Apply(h, st, Publish(s)); LeftBehind(r, c) && Pinned(r, c) && !CanGo(h, r, c)
  {
    SessionIsWellFormed(h, st, s);
    ExistingFinalizes(h, st, s, c);
    StepKeepsInv(h, st, Publish(s));
    hide Enabled, Apply, Inv, CanGo;
    RowCanGoExactlyWhenUnpinned(h, Apply(h, st, Publish(s)), c);
  }

  lemma ExistingFinalizes(h: Hashes, st: State, s: SessionId, c: ChunkId)
    requires Inv(h, st) && FindsExisting(st, s) && WellFormed(st.sessions[s].manifest) && Enabled(st, Publish(s))
    requires (s, c) in st.sessionChunks && c in st.chunks && st.chunks[c].refs == 0 && c !in st.queue
    requires forall t :: (t, c) in st.sessionChunks && t in st.sessions && t != s ==>
      st.sessions[t].state == SessionState.Finalized
    ensures var r := Apply(h, st, Publish(s)); LeftBehind(r, c) && Pinned(r, c)
  {
    hide Inv, WellFormed, FirstLength, AddReferences, ObjectRows;
    var r := PublishTx(st, s).0;
    assert r.sessions == Tables.Finalize(st.sessions, s) && r.sessionChunks == st.sessionChunks;
    assert (s, c) in r.sessionChunks;
  }
}
