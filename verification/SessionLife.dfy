/** Upload sessions over all runs, what a begin decides, and what reclamation removes. */
module SessionLife {
  import opened Content
  import opened Manifests
  import opened Tables
  import opened Steps
  import opened Invariants
  import opened LiveBytes
  import opened Schedules

  /** A begin with another manifest for an object that has a live session changes nothing, not even
      stale sessions. */
  lemma ConflictingBeginChangesNothing(st: State, s: SessionId, drawn: SessionId, m: Manifest)
    requires SessionsSound(st.sessions, st.issued) && Live(st, s)
    requires m.oid == st.sessions[s].manifest.oid && m != st.sessions[s].manifest
    ensures BeginTx(st, drawn, m) == (st, if WellFormed(m) then Conflict else InvalidManifest)
  {
    hide WellFormed;
    var live := ExpireStale(st.sessions, st.now, m.oid);
    forall t | IsOpenFor(live, t, m.oid) ensures t == s {
      assert IsOpenFor(st.sessions, t, m.oid) && IsOpenFor(st.sessions, s, m.oid);
    }
    assert IsOpenFor(live, s, m.oid);
    assert OpenSessionOf(live, m.oid) == Some(s);
  }

  /** A begin for an object without a live session opens a new one; a session of that object left
      open past its expiry becomes expired; every other session is untouched. */
  lemma FirstBeginStarts(st: State, drawn: SessionId, m: Manifest)
    requires SessionsSound(st.sessions, st.issued) && drawn !in st.issued && WellFormed(m)
    requires forall s :: IsOpenFor(st.sessions, s, m.oid) ==> !Live(st, s)
    ensures var (r, answer) := BeginTx(st, drawn, m);
      && answer == Started(drawn) && r.issued == st.issued + {drawn}
      && r.sessions.Keys == st.sessions.Keys + {drawn}
      && r.sessions[drawn] == Session(m, Open, st.now + SESSION_LIFETIME)
      && forall s :: s in st.sessions ==>
           r.sessions[s] == if IsOpenFor(st.sessions, s, m.oid)
                            then st.sessions[s].(state := Expired) else st.sessions[s]
  {
    hide WellFormed;
    var live := ExpireStale(st.sessions, st.now, m.oid);
    forall s ensures !IsOpenFor(live, s, m.oid) {
      assert IsOpenFor(live, s, m.oid) ==> IsOpenFor(st.sessions, s, m.oid);
    }
    assert OpenSessionOf(live, m.oid) == None;
  }

  // ------------------------------------------------------------------ over runs

  /** A begin that starts or resumes a session gives it 24 hours. */
  lemma BeginGrantsADay(st: State, drawn: SessionId, m: Manifest)
    ensures var (r, answer) := BeginTx(st, drawn, m);
      answer.Started? ==> IsOpenFor(r.sessions, answer.id, m.oid) && r.sessions[answer.id].expiresAt == st.now + 86_400
  {
    hide WellFormed;
  }

  /** Only a begin for its object moves a session's expiry. */
  lemma StepKeepsExpiry(h: Hashes, st: State, step: Step, s: SessionId)
    requires Enabled(st, step) && Inv(h, st) && s in st.sessions && s in Apply(h, st, step).sessions
    requires step.Begin? ==> step.manifest.oid != st.sessions[s].manifest.oid
    ensures Apply(h, st, step).sessions[s].expiresAt == st.sessions[s].expiresAt
  {
    hide CatalogueSound, RegisterTx, PublishTx, CollectTx, StageTx, SubmitTx, PutEffect, Candidates, BeginTx, ReclaimTx;
    Frame(h, st, step);
    match step {
      case Begin(drawn, m) => OtherBeginKeeps(st, drawn, m, s);
      case Publish(t) => PublishKeepsExpiry(st, t, s);
      case Reclaim(grace) => ReclaimRemovesExactly(st, grace);
      case _ =>
    }
  }

  lemma OtherBeginKeeps(st: State, drawn: SessionId, m: Manifest, s: SessionId)
    requires s in st.sessions && drawn !in st.sessions && m.oid != st.sessions[s].manifest.oid
    ensures s in BeginTx(st, drawn, m).0.sessions && BeginTx(st, drawn, m).0.sessions[s] == st.sessions[s]
  {
    hide WellFormed;
  }

  lemma PublishKeepsExpiry(st: State, t: SessionId, s: SessionId)
    requires s in st.sessions
    ensures s in PublishTx(st, t).0.sessions
    ensures PublishTx(st, t).0.sessions[s].expiresAt == st.sessions[s].expiresAt
  {
    hide WellFormed, EnsureRows, AddReferences, ObjectRows;
  }

  /** A session accepts chunks until 24 hours after its last begin, and not later: as long as no further begin for its
      object comes and the session is open, it is live exactly until then. */
  lemma {:induction false} LiveForADay(h: Hashes, run: Run, i: nat, n: nat, s: SessionId)
    requires IsRun(h, run) && Inv(h, run.states[0]) && i < n <= |run.steps| && run.steps[i].Begin?
    requires BeginTx(run.states[i], run.steps[i].drawn, run.steps[i].manifest).1 == Started(s)
    requires forall k :: i < k < n && run.steps[k].Begin? ==> run.steps[k].manifest.oid != run.steps[i].manifest.oid
    requires forall k :: i < k <= n ==> s in run.states[k].sessions
    ensures run.states[n].sessions[s].manifest.oid == run.steps[i].manifest.oid
    ensures Live(run.states[n], s) <==>
      IsOpen(run.states[n].sessions, s) && run.states[n].now < run.states[i].now + 86_400
    ensures run.states[n].sessions[s].expiresAt == run.states[i].now + 86_400
    decreases n
  {
    hide BeginTx, Inv;
    var before, step := run.states[n - 1], run.steps[n - 1];
    assert Next(h, before, step, run.states[n]);
    RunKeepsInv(h, run, n - 1);
    if n == i + 1 {
      BeginGrantsADay(before, step.drawn, step.manifest);
    } else {
      LiveForADay(h, run, i, n - 1, s);
      hide Enabled, Apply;
      StepKeepsExpiry(h, before, step, s);
      SessionKeepsObject(h, before, step, s);
    }
  }

  lemma SessionKeepsObject(h: Hashes, st: State, step: Step, s: SessionId)
    requires Enabled(st, step) && Inv(h, st) && s in st.sessions && s in Apply(h, st, step).sessions
    ensures Apply(h, st, step).sessions[s].manifest == st.sessions[s].manifest
  {
    hide Enabled, Apply, CatalogueSound, WellFormed;
    StepEvolvesSessions(h, st, step);
  }

  lemma {:induction false} GoneForever(h: Hashes, run: Run, i: nat, n: nat, s: SessionId)
    requires IsRun(h, run) && Inv(h, run.states[0]) && i <= n <= |run.steps|
    requires s in run.states[i].issued && s !in run.states[i].sessions
    ensures s in run.states[n].issued && s !in run.states[n].sessions
    decreases n - i
  {
    hide Apply, CatalogueSound;
    if i < n {
      GoneForever(h, run, i, n - 1, s);
      RunKeepsInv(h, run, n - 1);
      var st, step := run.states[n - 1], run.steps[n - 1];
      assert Next(h, st, step, run.states[n]);
      StepEvolvesSessions(h, st, step);
      Frame(h, st, step);
      if step.Begin? { BeginStep(h, st, step.drawn, step.manifest); }
    }
  }

  /** Session lifecycle over every run: a session's manifest never changes, it leaves the open state
      once, for finalized or expired, and a removed id never comes back. */
  lemma {:induction false} SessionLifeline(h: Hashes, run: Run, i: nat, n: nat, s: SessionId)
    requires IsRun(h, run) && Inv(h, run.states[0]) && i <= n <= |run.steps|
    requires s in run.states[i].sessions
    ensures s in run.states[n].sessions ==> Evolves(run.states[i].sessions[s], run.states[n].sessions[s])
    ensures s !in run.states[n].sessions ==> run.states[i].sessions[s].state != Finalized
    decreases n - i
  {
    hide Enabled, Apply, CatalogueSound;
    if i < n {
      RunKeepsInv(h, run, i);
      assert Next(h, run.states[i], run.steps[i], run.states[i + 1]);
      StepEvolvesSessions(h, run.states[i], run.steps[i]);
      if s in run.states[i + 1].sessions {
        SessionLifeline(h, run, i + 1, n, s);
      } else {
        Frame(h, run.states[i], run.steps[i]);
        GoneForever(h, run, i + 1, n, s);
      }
    }
  }

  /** At most one open session per object, in every reachable state. */
  lemma ReachableOneOpen(h: Hashes, st: State, s: SessionId, t: SessionId, oid: Oid)
    requires Reachable(h, st) && IsOpenFor(st.sessions, s, oid) && IsOpenFor(st.sessions, t, oid)
    ensures s == t
  {
    ReachableInv(h, st);
  }

  // ------------------------------------------------------------------ reclamation

  /** Reclaim exactness, the sessions: exactly the non-finalized sessions whose expiry plus grace has
      come are removed, with their registrations; open ones past their expiry become expired. */
  lemma ReclaimRemovesExactly(st: State, grace: nat)
    ensures var r := ReclaimTx(st, grace);
      && r.sessions.Keys <= st.sessions.Keys
      && (forall s :: s in st.sessions ==>
            (s !in r.sessions <==>
              st.sessions[s].state != Finalized && st.sessions[s].expiresAt + grace <= st.now))
      && (forall s :: s in r.sessions ==>
            r.sessions[s] == if st.sessions[s].state == Open && st.sessions[s].expiresAt <= st.now
                             then st.sessions[s].(state := Expired) else st.sessions[s])
      && (forall s, c :: s in st.sessions ==>
            ((s, c) in r.sessionChunks <==> (s, c) in st.sessionChunks && s in r.sessions))
  {
  }

  /** Some session this reclamation removes holds the chunk. */
  ghost predicate LosesHolder(st: State, grace: nat, c: ChunkId) {
    exists s :: (s, c) in st.sessionChunks && s in st.sessions && s !in ReclaimTx(st, grace).sessions
  }

  lemma OpenAfterExpiry(st: State, c: ChunkId)
    ensures HeldOpen(ExpireAll(st.sessions, st.now), st.sessionChunks, c)
      <==> exists s :: (s, c) in st.sessionChunks && Live(st, s)
  {
    var expired := ExpireAll(st.sessions, st.now);
    assert forall s :: IsOpen(expired, s) <==> Live(st, s);
  }

  lemma RemovedHolder(st: State, grace: nat, c: ChunkId)
    ensures LosesHolder(st, grace, c) <==>
      exists s :: (s, c) in st.sessionChunks && s in Removable(ExpireAll(st.sessions, st.now), st.now, grace)
  {
    hide Abandoned, Released;
    var removed := Removable(ExpireAll(st.sessions, st.now), st.now, grace);
    assert forall s :: s in removed <==> s in st.sessions && s !in ReclaimTx(st, grace).sessions;
  }

  /** Reclaim exactness, the queue: exactly the unreferenced chunks that lose a holder and that no
      open, unexpired session holds. */
  lemma ReclaimQueuesExactly(st: State, grace: nat, c: ChunkId)
    ensures c in ReclaimTx(st, grace).queue <==>
      || c in st.queue
      || (&& c in st.chunks && st.chunks[c].refs == 0 && LosesHolder(st, grace, c)
          && !exists s :: (s, c) in st.sessionChunks && Live(st, s))
  {
    hide HeldOpen, LosesHolder, Removable, ExpireAll, Released;
    OpenAfterExpiry(st, c);
    RemovedHolder(st, grace, c);
  }

  /** Bytes a drain removes never belong to a chunk that a live object references or an open session
      holds, nor did they when the deletion was decided. */
  lemma DrainDeletesOnlyDead(h: Hashes, st: State, c: ChunkId)
    requires Reachable(h, st) && Enabled(st, DrainDelete(c))
    ensures forall oid :: oid in st.objects ==> c !in Ids(st.objects[oid])
    ensures !HeldOpen(st.sessions, st.sessionChunks, c)
  {
    ReachableInv(h, st);
    forall oid | oid in st.objects ensures c !in Ids(st.objects[oid]) {
      hide CatalogueSound;
      if c in Ids(st.objects[oid]) { LiveChunkReferenced(h, st, oid, c); }
    }
  }
}
