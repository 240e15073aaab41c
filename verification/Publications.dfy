/** Publication: all or nothing, exactly once, and what it does to reference counts. */
module Publications {
  import opened Content
  import opened Manifests
  import opened Tables
  import opened Steps
  import opened Invariants
  import opened LiveBytes

  // ------------------------------------------------------------------ conservation

  /** How often a manifest names a chunk, repeats included. */
  function Occurrences(chunks: seq<Descriptor>, c: ChunkId): (n: nat) {
    if chunks == [] then 0
    else Occurrences(chunks[..|chunks| - 1], c) + if chunks[|chunks| - 1].id == c then 1 else 0
  }

  /** How often all published manifests together name a chunk. */
  ghost function TotalOccurrences(objects: ObjectTable, c: ChunkId): (n: nat) {
    if objects == map[] then 0
    else
      var oid :| oid in objects;
      Occurrences(objects[oid].chunks, c) + TotalOccurrences(objects - {oid}, c)
  }

  /** The rows a manifest's first `n` descriptors give rise to. */
  function PrefixRows(oid: Oid, chunks: seq<Descriptor>, n: nat): (rows: RowTable)
    requires n <= |chunks|
  {
    map i: nat | 0 <= i < n :: (oid, i) := chunks[i]
  }

  lemma NamingInsert(rows: RowTable, k: (Oid, nat), d: Descriptor, c: ChunkId)
    requires k !in rows
    ensures |Naming(rows[k := d], c)| == |Naming(rows, c)| + if d.id == c then 1 else 0
  {
    var before, after := Naming(rows, c), Naming(rows[k := d], c);
    if d.id == c {
      assert after == before + {k};
      assert k !in before;
    } else {
      assert after == before;
    }
  }

  lemma PrefixRowsSnoc(oid: Oid, chunks: seq<Descriptor>, n: nat)
    requires n < |chunks|
    ensures (oid, n) !in PrefixRows(oid, chunks, n)
    ensures PrefixRows(oid, chunks, n + 1) == PrefixRows(oid, chunks, n)[(oid, n) := chunks[n]]
  {
  }

  lemma OccurrencesSnoc(chunks: seq<Descriptor>, n: nat, c: ChunkId)
    requires n < |chunks|
    ensures Occurrences(chunks[..n + 1], c) == Occurrences(chunks[..n], c) + if chunks[n].id == c then 1 else 0
  {
    assert chunks[..n + 1][..n] == chunks[..n];
  }

  lemma {:induction false} PrefixRowsCount(oid: Oid, chunks: seq<Descriptor>, n: nat, c: ChunkId)
    requires n <= |chunks|
    ensures |Naming(PrefixRows(oid, chunks, n), c)| == Occurrences(chunks[..n], c)
  {
    if n == 0 {
      assert Naming(PrefixRows(oid, chunks, 0), c) == {};
    } else {
      hide PrefixRows, Naming, Occurrences;
      PrefixRowsCount(oid, chunks, n - 1, c);
      PrefixRowsSnoc(oid, chunks, n - 1);
      NamingInsert(PrefixRows(oid, chunks, n - 1), (oid, n - 1), chunks[n - 1], c);
      OccurrencesSnoc(chunks, n - 1, c);
    }
  }

  lemma ObjectRowsCount(oid: Oid, m: Manifest, c: ChunkId)
    ensures |Naming(ObjectRows(oid, m), c)| == Occurrences(m.chunks, c)
  {
    PrefixRowsCount(oid, m.chunks, |m.chunks|, c);
    assert PrefixRows(oid, m.chunks, |m.chunks|) == ObjectRows(oid, m);
    assert m.chunks[..|m.chunks|] == m.chunks;
  }

  /** The rows naming a chunk, counted object by object. */
  lemma {:induction false} RowsAreOccurrences(objects: ObjectTable, rows: RowTable, c: ChunkId)
    requires RowsMatch(objects, rows)
    ensures |Naming(rows, c)| == TotalOccurrences(objects, c)
    decreases |objects|
  {
    if objects == map[] {
      assert rows == map[];
    } else {
      var oid :| oid in objects && TotalOccurrences(objects, c)
        == Occurrences(objects[oid].chunks, c) + TotalOccurrences(objects - {oid}, c);
      var owned := RowsOf(rows, oid);
      RowsRemoved(objects, rows, oid);
      assert (objects - {oid}).Keys == objects.Keys - {oid};
      assert |objects.Keys - {oid}| < |objects.Keys|;
      RowsAreOccurrences(objects - {oid}, rows - owned.Keys, c);
      NamingDrops(rows, oid, c);
      assert owned == ObjectRows(oid, objects[oid]);
      ObjectRowsCount(oid, objects[oid], c);
    }
  }

  /** Reference-count conservation: in every reachable state a chunk's count is the number of
      object_chunks rows naming it, which is its number of occurrences over all published manifests;
      so it is never negative. */
  lemma CountsAreOccurrences(h: Hashes, st: State, c: ChunkId)
    requires Reachable(h, st) && c in st.chunks
    ensures st.chunks[c].refs == |Naming(st.objectChunks, c)| == TotalOccurrences(st.objects, c)
    ensures 0 <= st.chunks[c].refs
  {
    ReachableInv(h, st);
    RowsAreOccurrences(st.objects, st.objectChunks, c);
  }

  // ------------------------------------------------------------------ all or nothing

  function Refs(chunks: ChunkTable, c: ChunkId): (n: int) {
    if c in chunks then chunks[c].refs else 0
  }

  /** Publication is all or nothing: an error changes nothing; finding the object already there
      changes no count, no object and no row; creating it adds exactly the object, its rows, and one
      reference per occurrence. */
  lemma PublishAllOrNothing(st: State, s: SessionId)
    ensures var (r, outcome) := PublishTx(st, s);
      && (outcome.NotFound? || outcome.Rejected? ==> r == st)
      && (outcome.Existing? ==>
            && r.objects == st.objects && r.objectChunks == st.objectChunks
            && forall c :: Refs(r.chunks, c) == Refs(st.chunks, c))
      && (outcome.Created? ==>
            var m := st.sessions[s].manifest;
            && IsOpen(st.sessions, s) && m.oid !in st.objects
            && r.objects == st.objects[m.oid := m]
            && r.objectChunks == st.objectChunks + ObjectRows(m.oid, m)
            && forall c :: Refs(r.chunks, c) == Refs(st.chunks, c) + Occurrences(m.chunks, c))
  {
    var (r, outcome) := PublishTx(st, s);
    if outcome.Created? {
      var m := st.sessions[s].manifest;
      CreatedParts(st, s);
      forall c ensures Refs(r.chunks, c) == Refs(st.chunks, c) + Occurrences(m.chunks, c) {
        hide PublishTx, WellFormed;
        ObjectRowsCount(m.oid, m, c);
        if c !in Ids(m) { NotNamed(m.oid, m, c); }
      }
    } else if outcome.Existing? {
      hide WellFormed, AddReferences, ObjectRows, FirstLength;
    } else {
      hide EnsureRows, AddReferences, ObjectRows;
    }
  }

  /** Index `i` is the first of the manifest that names the chunk. */
  ghost predicate FirstNames(chunks: seq<Descriptor>, i: nat, c: ChunkId) {
    i < |chunks| && chunks[i].id == c && forall k: nat :: k < i ==> chunks[k].id != c
  }

  lemma {:induction false} FirstLengthIs(chunks: seq<Descriptor>, c: ChunkId) returns (i: nat)
    requires exists k :: 0 <= k < |chunks| && chunks[k].id == c
    ensures FirstNames(chunks, i, c) && FirstLength(chunks, c) == chunks[i].length
  {
    if chunks[0].id == c {
      i := 0;
    } else {
      assert forall k :: 1 <= k < |chunks| ==> chunks[k] == chunks[1..][k - 1];
      var j := FirstLengthIs(chunks[1..], c);
      i := j + 1;
    }
  }

  /** What a publication answers, exactly, and what it does to sessions: an invalid manifest is rejected; a session
      that is neither finalized nor open and unexpired is not found; a finalized one answers from its state; an open
      one is finalized, and its object exists already or is created. */
  lemma PublishDecides(st: State, s: SessionId)
    ensures var (r, outcome) := PublishTx(st, s);
      var open := s in st.sessions && st.sessions[s].state == Open && st.now < st.sessions[s].expiresAt;
      var finalized := s in st.sessions && st.sessions[s].state == Finalized;
      && (outcome.Rejected? <==> s in st.sessions && !WellFormed(st.sessions[s].manifest))
      && (outcome.NotFound? <==> !outcome.Rejected? && !open && !finalized)
      && (outcome.Created? <==> !outcome.Rejected? && open && st.sessions[s].manifest.oid !in st.objects)
      && (!outcome.Rejected? && open ==> r.sessions == st.sessions[s := st.sessions[s].(state := Finalized)])
      && (outcome.Rejected? || !open ==> r == st)
  {
    hide WellFormed, EnsureRows, AddReferences, ObjectRows;
  }

  /** Publication records sizes: rows that existed keep theirs, new ones are those of the manifest's chunks and take
      the length of the first descriptor naming the chunk. */
  lemma PublishRecordsSizes(st: State, s: SessionId, c: ChunkId)
    ensures var (r, outcome) := PublishTx(st, s);
      && (outcome.Created? ==> (c in r.chunks <==> c in st.chunks || c in Ids(st.sessions[s].manifest)))
      && (c in st.chunks ==> c in r.chunks && r.chunks[c].size == st.chunks[c].size)
      && (c in r.chunks && c !in st.chunks ==>
            exists i: nat :: FirstNames(st.sessions[s].manifest.chunks, i, c)
                             && r.chunks[c].size == st.sessions[s].manifest.chunks[i].length)
  {
    hide WellFormed, ObjectRows, Naming, Finalize;
    if c in PublishTx(st, s).0.chunks && c !in st.chunks {
      var i := FirstLengthIs(st.sessions[s].manifest.chunks, c);
    }
  }

  lemma CreatedParts(st: State, s: SessionId)
    requires PublishTx(st, s).1.Created?
    ensures s in st.sessions
    ensures var m := st.sessions[s].manifest; var added := ObjectRows(m.oid, m);
      && IsOpen(st.sessions, s) && m.oid !in st.objects
      && PublishTx(st, s).0.objects == st.objects[m.oid := m]
      && PublishTx(st, s).0.objectChunks == st.objectChunks + added
      && PublishTx(st, s).0.chunks == AddReferences(EnsureRows(st.chunks, m), added)
  {
    hide EnsureRows, AddReferences, ObjectRows, WellFormed;
  }

  lemma NotNamed(oid: Oid, m: Manifest, c: ChunkId)
    requires c !in Ids(m)
    ensures |Naming(ObjectRows(oid, m), c)| == 0
  {
    var rows := ObjectRows(oid, m);
    assert forall k :: k in rows ==> rows[k].id in Ids(m);
    NamingNone(rows, c);
  }

  // ------------------------------------------------------------------ exactly once

  ghost predicate CreatesAt(run: Run, i: nat, oid: Oid)
    requires i < |run.steps| < |run.states|
  {
    && run.steps[i].Publish? && Creates(run.states[i], run.steps[i].session)
    && run.steps[i].session in run.states[i].sessions
    && run.states[i].sessions[run.steps[i].session].manifest.oid == oid
  }

  /** How many publications returned true for an object, in the first `n` steps. */
  ghost function Creations(run: Run, n: nat, oid: Oid): (k: nat)
    requires n <= |run.steps| < |run.states|
  {
    if n == 0 then 0 else Creations(run, n - 1, oid) + if CreatesAt(run, n - 1, oid) then 1 else 0
  }

  ghost function Deletions(run: Run, n: nat, oid: Oid): (k: nat)
    requires n <= |run.steps|
  {
    if n == 0 then 0 else Deletions(run, n - 1, oid) + if run.steps[n - 1] == Collect(oid) then 1 else 0
  }

  /** One step changes an object's presence exactly by a creation or a deletion. */
  lemma StepTogglesObject(h: Hashes, st: State, step: Step, oid: Oid)
    requires Enabled(st, step) && Inv(h, st)
    ensures var r := Apply(h, st, step);
      var creates := step.Publish? && Creates(st, step.session) && st.sessions[step.session].manifest.oid == oid;
      && (creates ==> oid !in st.objects && oid in r.objects)
      && (step == Collect(oid) ==> oid in st.objects && oid !in r.objects)
      && (!creates && step != Collect(oid) ==> (oid in r.objects <==> oid in st.objects))
  {
    hide CatalogueSound, BeginTx, RegisterTx, PublishTx, CollectTx, ReclaimTx;
    Frame(h, st, step);
    match step {
      case Publish(s) => PublishCreates(st, s);
      case Collect(other) => CollectKeepsCatalogue(st, other);
      case _ =>
    }
  }

  /** Exactly once per creation: however many finalizes repeat or compete, for one session or several,
      an object has been created once more than it has been deleted if it is live, and equally often
      if it is not. */
  lemma {:induction false} CreatedOncePerLife(h: Hashes, run: Run, n: nat, oid: Oid)
    requires RunFrom(h, EMPTY, run) && n <= |run.steps|
    ensures Creations(run, n, oid) == Deletions(run, n, oid) + if oid in run.states[n].objects then 1 else 0
  {
    hide Enabled, Apply, Inv, Creates;
    if n > 0 {
      CreatedOncePerLife(h, run, n - 1, oid);
      var st, step := run.states[n - 1], run.steps[n - 1];
      EmptyInv(h);
      RunKeepsInv(h, run, n - 1);
      assert Next(h, st, step, run.states[n]);
      StepTogglesObject(h, st, step, oid);
      if step.Publish? && Creates(st, step.session) { PublishCreates(st, step.session); }
    }
  }

  /** A finalized session stays, finalized, for ever. */
  lemma {:induction false} FinalizedForever(h: Hashes, run: Run, i: nat, n: nat, s: SessionId)
    requires IsRun(h, run) && Inv(h, run.states[0]) && i <= n <= |run.steps|
    requires s in run.states[i].sessions && run.states[i].sessions[s].state == Finalized
    ensures s in run.states[n].sessions && run.states[n].sessions[s].state == Finalized
    decreases n - i
  {
    hide Enabled, Apply, CatalogueSound;
    if i < n {
      FinalizedForever(h, run, i, n - 1, s);
      RunKeepsInv(h, run, n - 1);
      assert Next(h, run.states[n - 1], run.steps[n - 1], run.states[n]);
      StepEvolvesSessions(h, run.states[n - 1], run.steps[n - 1]);
    }
  }

  lemma PublishFinalizes(st: State, s: SessionId)
    requires Creates(st, s)
    ensures s in PublishTx(st, s).0.sessions && PublishTx(st, s).0.sessions[s].state == Finalized
  {
    hide EnsureRows, AddReferences, ObjectRows, WellFormed;
  }

  /** One upload id creates at most one object, ever: every later finalize of it answers from the
      session's state, whatever became of the object. */
  lemma SessionCreatesAtMostOnce(h: Hashes, run: Run, i: nat, j: nat, s: SessionId)
    requires IsRun(h, run) && Inv(h, run.states[0]) && i < j < |run.steps|
    requires run.steps[i] == Publish(s) && Creates(run.states[i], s) && run.steps[j] == Publish(s)
    ensures !Creates(run.states[j], s) && run.states[j + 1] == run.states[j]
  {
    assert Next(h, run.states[i], run.steps[i], run.states[i + 1]);
    assert Next(h, run.states[j], run.steps[j], run.states[j + 1]);
    PublishFinalizes(run.states[i], s);
    FinalizedForever(h, run, i + 1, j, s);
    RepeatedPublish(h, run, j, s);
  }

  lemma RepeatedPublish(h: Hashes, run: Run, j: nat, s: SessionId)
    requires IsRun(h, run) && Inv(h, run.states[0]) && j <= |run.steps|
    requires s in run.states[j].sessions && run.states[j].sessions[s].state == Finalized
    ensures PublishTx(run.states[j], s) == (run.states[j], Existing)
  {
    hide Apply, Enabled, CatalogueSound, EnsureRows, AddReferences, ObjectRows;
    RunKeepsInv(h, run, j);
  }
}
