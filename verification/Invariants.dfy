/** What every step of the server keeps. */
module Invariants {
  import opened Content
  import opened Manifests
  import opened Tables
  import opened Steps

  /** object_chunks holds exactly the rows of the published manifests. */
  ghost predicate RowsMatch(objects: ObjectTable, rows: RowTable) {
    && (forall k :: k in rows <==> k.0 in objects && k.1 < |objects[k.0].chunks|)
    && (forall k :: k in rows ==> rows[k] == objects[k.0].chunks[k.1])
  }

  /** Reference-count conservation: a count is the number of object_chunks rows naming the chunk. */
  ghost predicate Counted(chunks: ChunkTable, rows: RowTable) {
    forall c :: c in chunks ==> chunks[c].refs == |Naming(rows, c)|
  }

  ghost predicate CatalogueSound(objects: ObjectTable, rows: RowTable, chunks: ChunkTable) {
    && RowsMatch(objects, rows)
    && Counted(chunks, rows)
    && (forall k :: k in rows ==> rows[k].id in chunks)
    && (forall oid :: oid in objects ==> objects[oid].oid == oid && WellFormed(objects[oid]))
  }

  /** Recorded sizes come from accepted manifests, whatever was uploaded later. */
  ghost predicate SizesBounded(chunks: ChunkTable) {
    forall c :: c in chunks ==> 1 <= chunks[c].size <= FastCdcV1.Maximum()
  }

  /** The foreign keys of upload_session_chunks. */
  ghost predicate HoldsSound(sessions: SessionTable, held: HoldTable, chunks: ChunkTable) {
    forall s, c :: (s, c) in held ==> s in sessions && c in chunks
  }

  /** While a drain holds a chunk row's lock the row exists, is unreferenced and no open session
      holds the chunk. */
  ghost predicate LocksSound(draining: map<ChunkId, bool>, chunks: ChunkTable,
                             sessions: SessionTable, held: HoldTable)
  {
    forall c :: c in draining ==>
      c in chunks && chunks[c].refs == 0 && !HeldOpen(sessions, held, c)
  }

  ghost predicate OneOpenPerObject(sessions: SessionTable) {
    forall s, t, oid :: IsOpenFor(sessions, s, oid) && IsOpenFor(sessions, t, oid) ==> s == t
  }

  ghost predicate SessionsSound(sessions: SessionTable, issued: set<SessionId>) {
    && sessions.Keys <= issued
    && OneOpenPerObject(sessions)
    && (forall s :: s in sessions ==> WellFormed(sessions[s].manifest))
  }

  /** A registration outlives its call: while the session exists its registered chunks are
      recorded. */
  ghost predicate PutsSound(puts: set<PendingPut>, issued: set<SessionId>,
                            sessions: SessionTable, held: HoldTable)
  {
    forall p :: p in puts ==>
      && p.session in issued
      && (p.session in sessions ==> (p.session, p.chunk) in held)
  }

  /** An acknowledged chunk of a session is registered to it and, while the session is open, in the
      store. */
  ghost predicate AcksSound(acked: HoldTable, issued: set<SessionId>, sessions: SessionTable,
                            held: HoldTable, store: map<ChunkId, Bytes>)
  {
    forall s, c :: (s, c) in acked ==>
      && s in issued
      && (s in sessions ==> (s, c) in held)
      && (IsOpen(sessions, s) ==> c in store)
  }

  ghost predicate DigestsMatch(h: Hashes, store: map<ChunkId, Bytes>) {
    forall c :: c in store ==> h.blake3(store[c]) == c
  }

  /** Snapshots were completed in the past. */
  ghost predicate EpochsPast(epochs: map<EpochId, Epoch>, now: nat) {
    forall e :: e in epochs ==> epochs[e].completedAt <= now
  }

  ghost predicate Inv(h: Hashes, st: State) {
    && CatalogueSound(st.objects, st.objectChunks, st.chunks)
    && SizesBounded(st.chunks)
    && st.tombstones.Keys <= st.objects.Keys
    && HoldsSound(st.sessions, st.sessionChunks, st.chunks)
    && LocksSound(st.draining, st.chunks, st.sessions, st.sessionChunks)
    && SessionsSound(st.sessions, st.issued)
    && PutsSound(st.puts, st.issued, st.sessions, st.sessionChunks)
    && AcksSound(st.acked, st.issued, st.sessions, st.sessionChunks, st.store)
    && DigestsMatch(h, st.store)
    && EpochsPast(st.epochs, st.now)
  }

  // ------------------------------------------------------------------ rows and counts

  /** Rows of a new object do not meet existing rows, so counts add up. */
  lemma NamingAdds(rows: RowTable, more: RowTable, c: ChunkId)
    requires rows.Keys !! more.Keys
    ensures |Naming(rows + more, c)| == |Naming(rows, c)| + |Naming(more, c)|
  {
    assert Naming(rows + more, c) == Naming(rows, c) + Naming(more, c);
  }

  lemma NamingDrops(rows: RowTable, oid: Oid, c: ChunkId)
    ensures |Naming(rows - RowsOf(rows, oid).Keys, c)| == |Naming(rows, c)| - |Naming(RowsOf(rows, oid), c)|
  {
    var owned := RowsOf(rows, oid);
    assert Naming(rows, c) == Naming(rows - owned.Keys, c) + Naming(owned, c);
    assert Naming(rows - owned.Keys, c) !! Naming(owned, c);
  }

  lemma NamingNone(rows: RowTable, c: ChunkId)
    ensures |Naming(rows, c)| == 0 <==> forall k :: k in rows ==> rows[k].id != c
  {
    if |Naming(rows, c)| == 0 {
      assert forall k :: k in rows && rows[k].id == c ==> k in Naming(rows, c);
    } else {
      assert exists k :: k in Naming(rows, c);
    }
  }

  lemma RowsAdded(objects: ObjectTable, rows: RowTable, oid: Oid, m: Manifest)
    requires RowsMatch(objects, rows) && oid !in objects
    ensures rows.Keys !! ObjectRows(oid, m).Keys
    ensures RowsMatch(objects[oid := m], rows + ObjectRows(oid, m))
  {
  }

  lemma RowsRemoved(objects: ObjectTable, rows: RowTable, oid: Oid)
    requires RowsMatch(objects, rows)
    ensures RowsMatch(objects - {oid}, rows - RowsOf(rows, oid).Keys)
  {
  }

  /** Rows the upserts add are unreferenced, as no object_chunks row can name them yet. */
  lemma EnsuredRowsCounted(chunks: ChunkTable, rows: RowTable, m: Manifest)
    requires Counted(chunks, rows) && forall k :: k in rows ==> rows[k].id in chunks
    ensures Counted(EnsureRows(chunks, m), rows)
  {
    forall c | c in chunks.Keys + Ids(m) && c !in chunks
      ensures |Naming(rows, c)| == 0
    {
      NamingNone(rows, c);
    }
  }

  lemma ReferencesAdded(chunks: ChunkTable, rows: RowTable, more: RowTable)
    requires Counted(chunks, rows) && rows.Keys !! more.Keys
    ensures Counted(AddReferences(chunks, more), rows + more)
  {
    forall c | c in chunks
      ensures AddReferences(chunks, more)[c].refs == |Naming(rows + more, c)|
    {
      NamingAdds(rows, more, c);
    }
  }

  /** In a consistent state collection never meets the `reference_count >= 0` check: the counts it
      takes away are counts it had, and what is left still counts the remaining rows. */
  lemma ReferencesDropped(chunks: ChunkTable, rows: RowTable, oid: Oid)
    requires Counted(chunks, rows)
    ensures Counted(DropReferences(chunks, RowsOf(rows, oid)), rows - RowsOf(rows, oid).Keys)
    ensures forall c :: c in chunks ==> 0 <= DropReferences(chunks, RowsOf(rows, oid))[c].refs
  {
    forall c | c in chunks
      ensures DropReferences(chunks, RowsOf(rows, oid))[c].refs
           == |Naming(rows - RowsOf(rows, oid).Keys, c)|
    {
      NamingDrops(rows, oid, c);
    }
  }

  /** The catalogue of a new object is sound: its rows, and one reference for each of them. */
  lemma CatalogueAdds(objects: ObjectTable, rows: RowTable, chunks: ChunkTable, m: Manifest)
    requires CatalogueSound(objects, rows, chunks) && m.oid !in objects && WellFormed(m)
    ensures var added := ObjectRows(m.oid, m);
      CatalogueSound(objects[m.oid := m], rows + added, AddReferences(EnsureRows(chunks, m), added))
  {
    hide WellFormed, Naming, Counted, RowsMatch, EnsureRows, AddReferences, ObjectRows;
    var added := ObjectRows(m.oid, m);
    EnsuredRowsCounted(chunks, rows, m);
    RowsAdded(objects, rows, m.oid, m);
    ReferencesAdded(EnsureRows(chunks, m), rows, added);
    RowsNameEnsured(rows, chunks, m);
  }

  lemma RowsNameEnsured(rows: RowTable, chunks: ChunkTable, m: Manifest)
    requires forall k :: k in rows ==> rows[k].id in chunks
    ensures var added := ObjectRows(m.oid, m);
      forall k :: k in rows + added ==> (rows + added)[k].id in AddReferences(EnsureRows(chunks, m), added)
  {
    hide WellFormed, FirstLength, Naming;
    var added := ObjectRows(m.oid, m);
    forall k | k in rows + added ensures (rows + added)[k].id in EnsureRows(chunks, m) {
      if k in added { assert added[k].id in Ids(m); }
    }
  }

  lemma PublishKeepsCatalogue(st: State, s: SessionId)
    requires CatalogueSound(st.objects, st.objectChunks, st.chunks)
    ensures var r := PublishTx(st, s).0; CatalogueSound(r.objects, r.objectChunks, r.chunks)
  {
    hide WellFormed, EnsureRows, AddReferences, ObjectRows, Counted, RowsMatch;
    if s in st.sessions {
      var m := st.sessions[s].manifest;
      EnsuredRowsCounted(st.chunks, st.objectChunks, m);
      if m.oid !in st.objects && WellFormed(m) {
        CatalogueAdds(st.objects, st.objectChunks, st.chunks, m);
      }
    }
  }

  /** The collection transaction never aborts in a consistent state. */
  lemma CollectKeepsCatalogue(st: State, oid: Oid)
    requires CatalogueSound(st.objects, st.objectChunks, st.chunks)
    ensures var r := CollectTx(st, oid);
      && CatalogueSound(r.objects, r.objectChunks, r.chunks)
      && r.objects == st.objects - {oid}
      && r.tombstones == st.tombstones - {oid}
      && r.chunks == DropReferences(st.chunks, RowsOf(st.objectChunks, oid))
  {
    RowsRemoved(st.objects, st.objectChunks, oid);
    ReferencesDropped(st.chunks, st.objectChunks, oid);
    hide WellFormed, Naming, RowsMatch, Counted;
  }

  lemma CatalogueGrows(objects: ObjectTable, rows: RowTable, chunks: ChunkTable, c: ChunkId, size: nat)
    requires CatalogueSound(objects, rows, chunks) && c !in chunks
    ensures CatalogueSound(objects, rows, chunks[c := ChunkRow(size, 0)])
  {
    hide WellFormed, RowsMatch, Naming;
    NamingNone(rows, c);
  }

  lemma RegisterKeepsCatalogue(st: State, s: SessionId, index: nat, data: Bytes)
    requires CatalogueSound(st.objects, st.objectChunks, st.chunks)
    requires Uploadable(st, s, index, data)
    ensures CatalogueSound(st.objects, st.objectChunks, RegisterTx(st, s, index, data).chunks)
  {
    hide CatalogueSound;
    var d := st.sessions[s].manifest.chunks[index];
    if d.id !in st.chunks {
      CatalogueGrows(st.objects, st.objectChunks, st.chunks, d.id, d.length);
    }
  }

  lemma DrainKeepsCatalogue(objects: ObjectTable, rows: RowTable, chunks: ChunkTable, c: ChunkId)
    requires CatalogueSound(objects, rows, chunks) && c in chunks && chunks[c].refs == 0
    ensures CatalogueSound(objects, rows, chunks - {c})
  {
    hide WellFormed, RowsMatch;
    NamingNone(rows, c);
  }

  ghost predicate Catalogued(st: State) {
    CatalogueSound(st.objects, st.objectChunks, st.chunks)
  }

  lemma StepKeepsCatalogue(h: Hashes, st: State, step: Step)
    requires Enabled(st, step) && Inv(h, st)
    ensures Catalogued(Apply(h, st, step))
  {
    hide CatalogueSound, BeginTx, RegisterTx, PublishTx, CollectTx, ReclaimTx;
    Frame(h, st, step);
    match step {
      case Register(s, index, data) => RegisterKeepsCatalogue(st, s, index, data);
      case Publish(s) => PublishKeepsCatalogue(st, s);
      case Collect(oid) => CollectKeepsCatalogue(st, oid);
      case DrainCommit(c) => DrainKeepsCatalogue(st.objects, st.objectChunks, st.chunks, c);
      case _ =>
    }
  }

  // ------------------------------------------------------------------ sizes and tombstones

  lemma DescriptorBounded(m: Manifest, i: nat)
    requires WellFormed(m) && i < |m.chunks|
    ensures 1 <= m.chunks[i].length <= FastCdcV1.Maximum()
  {
    assert ChunkInPlace(m, i);
  }

  lemma {:induction false} FirstLengthBounded(chunks: seq<Descriptor>, c: ChunkId)
    requires exists i :: 0 <= i < |chunks| && chunks[i].id == c
    requires forall i :: 0 <= i < |chunks| ==> 1 <= chunks[i].length <= FastCdcV1.Maximum()
    ensures 1 <= FirstLength(chunks, c) <= FastCdcV1.Maximum()
  {
    if chunks[0].id != c {
      assert forall i :: 1 <= i < |chunks| ==> chunks[i] == chunks[1..][i - 1];
      FirstLengthBounded(chunks[1..], c);
    }
  }

  lemma EnsuredSizesBounded(chunks: ChunkTable, m: Manifest)
    requires SizesBounded(chunks) && WellFormed(m)
    ensures SizesBounded(EnsureRows(chunks, m))
  {
    forall c | c in EnsureRows(chunks, m) && c !in chunks
      ensures 1 <= FirstLength(m.chunks, c) <= FastCdcV1.Maximum()
    {
      forall i | 0 <= i < |m.chunks| ensures 1 <= m.chunks[i].length <= FastCdcV1.Maximum() {
        DescriptorBounded(m, i);
      }
      FirstLengthBounded(m.chunks, c);
    }
  }

  lemma RegisterKeepsSizes(st: State, s: SessionId, index: nat, data: Bytes)
    requires SizesBounded(st.chunks) && Uploadable(st, s, index, data)
    requires WellFormed(st.sessions[s].manifest)
    ensures SizesBounded(RegisterTx(st, s, index, data).chunks)
  {
    DescriptorBounded(st.sessions[s].manifest, index);
  }

  lemma PublishKeepsSizes(st: State, s: SessionId)
    requires SizesBounded(st.chunks)
    ensures SizesBounded(PublishTx(st, s).0.chunks)
  {
    hide WellFormed, EnsureRows, Naming;
    if s in st.sessions && WellFormed(st.sessions[s].manifest) {
      EnsuredSizesBounded(st.chunks, st.sessions[s].manifest);
    }
  }

  lemma CollectKeepsSizes(st: State, oid: Oid)
    requires SizesBounded(st.chunks)
    ensures SizesBounded(CollectTx(st, oid).chunks)
  {
    hide Naming, RowsOf;
  }

  lemma StepKeepsSizes(h: Hashes, st: State, step: Step)
    requires Enabled(st, step) && Inv(h, st)
    ensures SizesBounded(Apply(h, st, step).chunks)
  {
    hide CatalogueSound, BeginTx, RegisterTx, PublishTx, CollectTx, ReclaimTx;
    hide HoldsSound, LocksSound, PutsSound, AcksSound, DigestsMatch, EpochsPast, HeldOpen, Named;
    Frame(h, st, step);
    match step {
      case Register(s, index, data) => RegisterKeepsSizes(st, s, index, data);
      case Publish(s) => PublishKeepsSizes(st, s);
      case Collect(oid) => CollectKeepsSizes(st, oid);
      case _ =>
    }
  }

  lemma PublishKeepsObjects(st: State, s: SessionId)
    ensures st.objects.Keys <= PublishTx(st, s).0.objects.Keys
  {
    hide EnsureRows, AddReferences, ObjectRows, WellFormed;
  }

  lemma StepKeepsTombstones(h: Hashes, st: State, step: Step)
    requires Enabled(st, step) && Inv(h, st)
    ensures var r := Apply(h, st, step); r.tombstones.Keys <= r.objects.Keys
  {
    hide CatalogueSound, BeginTx, RegisterTx, PublishTx, CollectTx, ReclaimTx;
    Frame(h, st, step);
    match step {
      case Publish(s) => PublishKeepsObjects(st, s);
      case Collect(oid) => CollectKeepsCatalogue(st, oid);
      case _ =>
    }
  }

  // ------------------------------------------------------------------ sessions

  /** A session's only moves: the manifest is fixed, and it leaves `Open` once, for `Finalized` or
      `Expired`, and stays there. */
  predicate Evolves(before: Session, after: Session) {
    && after.manifest == before.manifest
    && (before.state != Open ==> after.state == before.state)
  }

  ghost predicate SessionsEvolve(before: SessionTable, after: SessionTable) {
    forall s :: s in before && s in after ==> Evolves(before[s], after[s])
  }

  lemma StaleEvolve(sessions: SessionTable, now: nat, oid: Oid)
    ensures SessionsEvolve(sessions, ExpireStale(sessions, now, oid))
    ensures ExpireStale(sessions, now, oid).Keys == sessions.Keys
  {
  }

  lemma BeginEvolves(st: State, drawn: SessionId, m: Manifest)
    requires drawn !in st.issued && st.sessions.Keys <= st.issued
    ensures var r := BeginTx(st, drawn, m).0;
      && SessionsEvolve(st.sessions, r.sessions)
      && st.sessions.Keys <= r.sessions.Keys <= st.sessions.Keys + {drawn}
      && (drawn in r.sessions ==>
            && r.issued == st.issued + {drawn}
            && r.sessions[drawn].manifest == m && WellFormed(m)
            && forall s :: s in st.sessions ==> !IsOpenFor(r.sessions, s, m.oid))
      && (drawn !in r.sessions ==> r.issued == st.issued)
  {
    StaleEvolve(st.sessions, st.now, m.oid);
    var live := ExpireStale(st.sessions, st.now, m.oid);
    var (r, answer) := BeginTx(st, drawn, m);
    if answer == Started(drawn) && drawn !in st.sessions {
      assert r.sessions == live[drawn := Session(m, Open, st.now + SESSION_LIFETIME)];
      assert forall s :: s in st.sessions ==> r.sessions[s] == live[s] && !IsOpenFor(live, s, m.oid);
    }
  }

  lemma ReclaimEvolves(st: State, grace: nat)
    ensures var r := ReclaimTx(st, grace);
      && SessionsEvolve(st.sessions, r.sessions)
      && r.sessions.Keys <= st.sessions.Keys
      && r.sessionChunks <= st.sessionChunks
      && (forall s, c :: (s, c) in st.sessionChunks && s in r.sessions ==> (s, c) in r.sessionChunks)
      && (forall s, c :: (s, c) in r.sessionChunks && s in st.sessions ==> s in r.sessions)
      && (forall s :: s in st.sessions && s !in r.sessions ==> st.sessions[s].state != Finalized)
  {
  }

  lemma PublishEvolves(st: State, s: SessionId)
    ensures var r := PublishTx(st, s).0;
      SessionsEvolve(st.sessions, r.sessions) && r.sessions.Keys == st.sessions.Keys
  {
    assert PublishTx(st, s).0.sessions == st.sessions
      || (s in st.sessions && PublishTx(st, s).0.sessions == Finalize(st.sessions, s) && IsOpen(st.sessions, s)) by {
      hide EnsureRows, AddReferences, ObjectRows, WellFormed, Finalize;
    }
    hide PublishTx;
  }

  /** Session lifecycle, one step: ids and manifests persist, only `Begin` adds a session and only
      `Reclaim` removes one, never a finalized one. */
  lemma StepEvolvesSessions(h: Hashes, st: State, step: Step)
    requires Enabled(st, step) && st.sessions.Keys <= st.issued
    ensures var r := Apply(h, st, step);
      && SessionsEvolve(st.sessions, r.sessions)
      && r.sessions.Keys <= st.sessions.Keys + (if step.Begin? then {step.drawn} else {})
      && (forall s :: s in st.sessions && s !in r.sessions ==>
            step.Reclaim? && st.sessions[s].state != Finalized)
      && (forall s, c :: (s, c) in st.sessionChunks && s in r.sessions ==> (s, c) in r.sessionChunks)
  {
    hide BeginTx, RegisterTx, PublishTx, CollectTx, ReclaimTx;
    Frame(h, st, step);
    match step {
      case Begin(drawn, m) => BeginEvolves(st, drawn, m);
      case Register(s, index, data) => RegisterKeepsHolds(st, s, index, data);
      case Publish(s) => PublishEvolves(st, s);
      case Reclaim(grace) => ReclaimEvolves(st, grace);
      case _ =>
    }
  }

  lemma RegisterKeepsHolds(st: State, s: SessionId, index: nat, data: Bytes)
    requires Uploadable(st, s, index, data)
    ensures var r := RegisterTx(st, s, index, data);
      var c := st.sessions[s].manifest.chunks[index].id;
      && st.sessionChunks <= r.sessionChunks <= st.sessionChunks + {(s, c)}
      && st.chunks.Keys <= r.chunks.Keys <= st.chunks.Keys + {c}
      && (r.sessionChunks == st.sessionChunks || c in r.chunks)
      && (forall d :: d in st.chunks ==> r.chunks[d] == st.chunks[d])
      && st.puts <= r.puts <= st.puts + {PendingPut(s, c, data)}
      && (r.puts == st.puts || (s, c) in r.sessionChunks)
  {
  }

  /** No new session for an object that keeps an open one. */
  lemma EvolvedOneOpen(before: SessionTable, after: SessionTable)
    requires OneOpenPerObject(before) && SessionsEvolve(before, after)
    requires forall s, t :: s in after && s !in before && t in after && t !in before ==> s == t
    requires forall s, t, oid ::
      (s in after && s !in before && t in before && IsOpenFor(after, s, oid)) ==> !IsOpenFor(after, t, oid)
    ensures OneOpenPerObject(after)
  {
    forall s, t, oid | IsOpenFor(after, s, oid) && IsOpenFor(after, t, oid) ensures s == t {
      if s in before && t in before {
        assert IsOpenFor(before, s, oid) && IsOpenFor(before, t, oid);
      }
    }
  }

  lemma StepKeepsSessions(h: Hashes, st: State, step: Step)
    requires Enabled(st, step) && Inv(h, st)
    ensures var r := Apply(h, st, step); SessionsSound(r.sessions, r.issued)
  {
    hide Apply, CatalogueSound, WellFormed;
    Frame(h, st, step);
    StepEvolvesSessions(h, st, step);
    var r := Apply(h, st, step);
    if step.Begin? { BeginStep(h, st, step.drawn, step.manifest); }
    EvolvedOneOpen(st.sessions, r.sessions);
  }

  lemma BeginStep(h: Hashes, st: State, drawn: SessionId, m: Manifest)
    requires Enabled(st, Begin(drawn, m)) && st.sessions.Keys <= st.issued
    ensures var r := Apply(h, st, Begin(drawn, m));
      && st.issued <= r.issued
      && (drawn in r.sessions ==>
            && drawn in r.issued
            && r.sessions[drawn].manifest == m && WellFormed(m)
            && forall s :: s in st.sessions ==> !IsOpenFor(r.sessions, s, m.oid))
  {
    hide BeginTx, WellFormed;
    BeginEvolves(st, drawn, m);
  }

  // ------------------------------------------------------------------ holds and locks

  lemma PublishKeepsRows(st: State, s: SessionId)
    ensures st.chunks.Keys <= PublishTx(st, s).0.chunks.Keys
  {
    hide ObjectRows, WellFormed, Naming;
  }

  /** Rows never disappear except by a drain's commit. */
  lemma StepKeepsRows(h: Hashes, st: State, step: Step)
    requires Enabled(st, step) && Catalogued(st)
    ensures var r := Apply(h, st, step);
      st.chunks.Keys <= r.chunks.Keys + (if step.DrainCommit? then {step.chunk} else {})
  {
    hide CatalogueSound, BeginTx, RegisterTx, PublishTx, CollectTx, ReclaimTx;
    Frame(h, st, step);
    match step {
      case Register(s, index, data) => RegisterKeepsHolds(st, s, index, data);
      case Publish(s) => PublishKeepsRows(st, s);
      case Collect(oid) => CollectKeepsCatalogue(st, oid);
      case _ =>
    }
  }

  lemma StepKeepsHolds(h: Hashes, st: State, step: Step)
    requires Enabled(st, step) && Inv(h, st)
    ensures var r := Apply(h, st, step); HoldsSound(r.sessions, r.sessionChunks, r.chunks)
  {
    hide CatalogueSound, BeginTx, RegisterTx, PublishTx, CollectTx, ReclaimTx;
    Frame(h, st, step);
    StepKeepsRows(h, st, step);
    StepEvolvesSessions(h, st, step);
    match step {
      case Register(s, index, data) => RegisterKeepsHolds(st, s, index, data);
      case Reclaim(grace) => ReclaimEvolves(st, grace);
      case _ =>
    }
  }

  /** Only registration makes an open session hold a chunk it did not hold. */
  lemma StepAddsNoHolder(h: Hashes, st: State, step: Step, c: ChunkId)
    requires Enabled(st, step) && Inv(h, st)
    requires !HeldOpen(st.sessions, st.sessionChunks, c)
    requires step.Register? ==> st.sessions[step.session].manifest.chunks[step.index].id != c
    ensures var r := Apply(h, st, step); !HeldOpen(r.sessions, r.sessionChunks, c)
  {
    hide CatalogueSound, BeginTx, RegisterTx, PublishTx, CollectTx, ReclaimTx;
    Frame(h, st, step);
    StepEvolvesSessions(h, st, step);
    var r := Apply(h, st, step);
    match step {
      case Register(s, index, data) => RegisterKeepsHolds(st, s, index, data);
      case Reclaim(grace) => ReclaimEvolves(st, grace);
      case _ =>
    }
    forall s | (s, c) in r.sessionChunks ensures !IsOpen(r.sessions, s) {
      assert (s, c) in st.sessionChunks;
      assert !IsOpen(st.sessions, s);
    }
  }

  lemma StepKeepsLocks(h: Hashes, st: State, step: Step)
    requires Enabled(st, step) && Inv(h, st)
    ensures var r := Apply(h, st, step); LocksSound(r.draining, r.chunks, r.sessions, r.sessionChunks)
  {
    hide Apply, Inv, HeldOpen;
    var r := Apply(h, st, step);
    forall c | c in r.draining
      ensures c in r.chunks && r.chunks[c].refs == 0
      ensures !HeldOpen(r.sessions, r.sessionChunks, c)
    {
      LockComesUnheld(h, st, step, c);
      StepAddsNoHolder(h, st, step, c);
      LockedRowUnchanged(h, st, step, c);
    }
  }

  /** A row locked after the step was lockable before it, and the step is no registration of it. */
  lemma LockComesUnheld(h: Hashes, st: State, step: Step, c: ChunkId)
    requires Enabled(st, step) && Inv(h, st) && c in Apply(h, st, step).draining
    ensures c in st.chunks && st.chunks[c].refs == 0
    ensures !HeldOpen(st.sessions, st.sessionChunks, c)
    ensures step.Register? ==> st.sessions[step.session].manifest.chunks[step.index].id != c
    ensures step.Publish? && Creates(st, step.session) ==> c !in Ids(st.sessions[step.session].manifest)
    ensures step.DrainCommit? ==> c != step.chunk
  {
    hide HeldOpen, RowsMatch, WellFormed, Ids, BeginTx, RegisterTx, PublishTx, CollectTx, ReclaimTx;
    Frame(h, st, step);
    if c in st.chunks { assert st.chunks[c].refs == |Naming(st.objectChunks, c)|; }
  }

  lemma CollectSparesUnreferenced(st: State, oid: Oid, c: ChunkId)
    requires Catalogued(st) && c in st.chunks && st.chunks[c].refs == 0
    ensures c in CollectTx(st, oid).chunks && CollectTx(st, oid).chunks[c].refs == 0
  {
    hide RowsMatch, WellFormed, CollectTx;
    CollectKeepsCatalogue(st, oid);
    NamingDrops(st.objectChunks, oid, c);
  }

  lemma LockedRowUnchanged(h: Hashes, st: State, step: Step, c: ChunkId)
    requires Enabled(st, step) && Inv(h, st) && c in st.chunks && st.chunks[c].refs == 0
    requires step.Publish? && Creates(st, step.session) ==> c !in Ids(st.sessions[step.session].manifest)
    requires step.DrainCommit? ==> c != step.chunk
    ensures c in Apply(h, st, step).chunks && Apply(h, st, step).chunks[c].refs == 0
  {
    hide CatalogueSound, HeldOpen, BeginTx, RegisterTx, PublishTx, CollectTx, ReclaimTx, Ids, Creates;
    Frame(h, st, step);
    match step {
      case Register(s, index, data) => RegisterKeepsHolds(st, s, index, data);
      case Publish(s) => PublishSparesOthers(st, s, c);
      case Collect(oid) => CollectSparesUnreferenced(st, oid, c);
      case _ =>
    }
  }

  /** Publication leaves the rows of chunks outside its manifest alone, and every row when it does
      not create the object. */
  lemma PublishSparesOthers(st: State, s: SessionId, c: ChunkId)
    requires c in st.chunks && (Creates(st, s) ==> c !in Ids(st.sessions[s].manifest))
    ensures c in PublishTx(st, s).0.chunks && PublishTx(st, s).0.chunks[c] == st.chunks[c]
  {
    hide WellFormed, Naming, FirstLength, Finalize;
    if Creates(st, s) {
      var m := st.sessions[s].manifest;
      var added := ObjectRows(m.oid, m);
      assert forall k :: k in added ==> added[k].id in Ids(m);
      NamingNone(added, c);
    }
  }

  // ------------------------------------------------------------------ uploads and bytes

  lemma StepKeepsPuts(h: Hashes, st: State, step: Step)
    requires Enabled(st, step) && Inv(h, st)
    ensures var r := Apply(h, st, step); PutsSound(r.puts, r.issued, r.sessions, r.sessionChunks)
  {
    hide CatalogueSound, BeginTx, RegisterTx, PublishTx, CollectTx, ReclaimTx;
    Frame(h, st, step);
    StepEvolvesSessions(h, st, step);
    match step {
      case Begin(drawn, m) => BeginStep(h, st, drawn, m);
      case Register(s, index, data) => RegisterKeepsHolds(st, s, index, data);
      case _ =>
    }
  }

  /** A chunk an open session holds is never removed from the store: the only removal is a drain's,
      under a lock that excludes holders. */
  lemma StepKeepsHeldBytes(h: Hashes, st: State, step: Step, c: ChunkId)
    requires Enabled(st, step) && Inv(h, st)
    requires c in st.store && HeldOpen(st.sessions, st.sessionChunks, c)
    ensures var r := Apply(h, st, step); c in r.store && r.store[c] == st.store[c]
  {
    hide CatalogueSound, SizesBounded, HoldsSound, SessionsSound, PutsSound, AcksSound, DigestsMatch, EpochsPast;
    hide HeldOpen, Named, BeginTx, RegisterTx, PublishTx, CollectTx, ReclaimTx, StageTx, SubmitTx, Candidates;
    Frame(h, st, step);
  }

  lemma StepKeepsAcks(h: Hashes, st: State, step: Step)
    requires Enabled(st, step) && Inv(h, st)
    ensures var r := Apply(h, st, step);
      AcksSound(r.acked, r.issued, r.sessions, r.sessionChunks, r.store)
  {
    hide CatalogueSound, SizesBounded, LocksSound, DigestsMatch, EpochsPast, StageTx, SubmitTx, Candidates, Named;
    hide BeginTx, RegisterTx, PublishTx, CollectTx, ReclaimTx;
    Frame(h, st, step);
    StepEvolvesSessions(h, st, step);
    if step.Begin? { BeginStep(h, st, step.drawn, step.manifest); }
    var r := Apply(h, st, step);
    forall s, c | (s, c) in r.acked
      ensures s in r.issued
      ensures s in r.sessions ==> (s, c) in r.sessionChunks
      ensures IsOpen(r.sessions, s) ==> c in r.store
    {
      if (s, c) in st.acked && IsOpen(r.sessions, s) {
        assert IsOpen(st.sessions, s);
        StepKeepsHeldBytes(h, st, step, c);
      }
    }
  }

  lemma StepKeepsDigests(h: Hashes, st: State, step: Step)
    requires Enabled(st, step) && Inv(h, st)
    ensures DigestsMatch(h, Apply(h, st, step).store)
  {
    hide CatalogueSound, BeginTx, RegisterTx, PublishTx, CollectTx, ReclaimTx;
    Frame(h, st, step);
  }

  lemma StepKeepsEpochs(h: Hashes, st: State, step: Step)
    requires Enabled(st, step) && Inv(h, st)
    ensures EpochsPast(Apply(h, st, step).epochs, Apply(h, st, step).now)
  {
    hide CatalogueSound, BeginTx, RegisterTx, PublishTx, CollectTx, ReclaimTx;
    Frame(h, st, step);
  }

  /** Calls in flight keep what they have: ids drawn, writes to come, acknowledgements given, plans and lists read. */
  lemma StepKeepsCalls(h: Hashes, st: State, step: Step)
    requires Enabled(st, step)
    ensures var r := Apply(h, st, step);
      && st.issued <= r.issued && st.puts <= r.puts && st.acked <= r.acked
      && st.plans <= r.plans && st.listed <= r.listed
  {
    hide HeldOpen, Named, PublishTx, CollectTx, ReclaimTx, StageTx, SubmitTx, Candidates, BeginTx, RegisterTx;
    Frame(h, st, step);
    match step {
      case Begin(drawn, m) => BeginIssues(st, drawn, m);
      case Register(s, index, data) => RegisterKeepsHolds(st, s, index, data);
      case _ =>
    }
  }

  lemma BeginIssues(st: State, drawn: SessionId, m: Manifest)
    ensures st.issued <= BeginTx(st, drawn, m).0.issued
  {
    hide WellFormed, ExpireStale;
  }

  // ------------------------------------------------------------------ runs

  lemma StepKeepsInv(h: Hashes, st: State, step: Step)
    requires Enabled(st, step) && Inv(h, st)
    ensures Inv(h, Apply(h, st, step))
  {
    hide Enabled, Apply, CatalogueSound;
    StepKeepsCatalogue(h, st, step);
    StepKeepsSizes(h, st, step);
    StepKeepsTombstones(h, st, step);
    StepKeepsHolds(h, st, step);
    StepKeepsLocks(h, st, step);
    StepKeepsSessions(h, st, step);
    StepKeepsPuts(h, st, step);
    StepKeepsAcks(h, st, step);
    StepKeepsDigests(h, st, step);
    StepKeepsEpochs(h, st, step);
  }

  lemma EmptyInv(h: Hashes)
    ensures Inv(h, EMPTY)
  {
  }

  /** Every state of every run keeps the invariant. */
  lemma {:induction false} RunKeepsInv(h: Hashes, run: Run, n: nat)
    requires IsRun(h, run) && Inv(h, run.states[0]) && n <= |run.steps|
    ensures Inv(h, run.states[n])
  {
    hide Enabled, Apply, Inv;
    if n > 0 {
      RunKeepsInv(h, run, n - 1);
      assert Next(h, run.states[n - 1], run.steps[n - 1], run.states[n]);
      StepKeepsInv(h, run.states[n - 1], run.steps[n - 1]);
    }
  }

  /** In every reachable state the whole invariant holds. */
  lemma ReachableInv(h: Hashes, st: State)
    requires Reachable(h, st)
    ensures Inv(h, st)
  {
    var run: Run :| RunFrom(h, EMPTY, run) && run.Last() == st;
    EmptyInv(h);
    RunKeepsInv(h, run, |run.steps|);
  }
}
