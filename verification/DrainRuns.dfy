/** A whole drain call, undisturbed, is a run of the state machine: what `DrainChunkQueue` does in one go, the drain
    steps do one by one. So everything proved of runs holds of the call. */
module DrainRuns {
  import opened Content
  import opened Tables
  import opened Steps
  import opened Schedules
  import opened Cleanup
  import opened Maintenance
  import opened Servers

  /** The state after the entries of `settled` have been dealt with: the dead ones lost row, bytes and entry, the
      kept ones stayed, the others were dropped from the queue. */
  ghost function After(before: State, settled: set<ChunkId>): (r: State) {
    var gone := DeadQueued(before) * settled;
    before.(chunks := before.chunks - gone, store := before.store - gone,
            queue := before.queue - (settled - KeptQueued(before)), listed := before.listed + before.queue)
  }

  /** Nobody holds a lock, and no session row names a dead chunk among them. */
  ghost predicate Settleable(before: State, settled: set<ChunkId>) {
    && before.draining == map[] && settled <= before.queue
    && forall d :: d in DeadQueued(before) * settled ==> !Named(before.sessionChunks, d)
  }

  lemma AfterNothing(before: State)
    ensures After(before, {}) == before.(listed := before.listed + before.queue)
  {
    hide Dead, HeldOpen;
    assert DeadQueued(before) * {} == {} && {} - KeptQueued(before) == {};
    assert before.queue - {} == before.queue;
  }

  /** What the drain finds at an entry it has not settled is what was there at the start. */
  lemma EntryUntouched(before: State, settled: set<ChunkId>, c: ChunkId)
    requires c in before.queue && c !in settled
    ensures var st := After(before, settled);
      && c in st.listed && c in st.queue && (c in st.chunks <==> c in before.chunks)
      && (c in st.chunks ==> st.chunks[c] == before.chunks[c])
  {
    hide Dead, HeldOpen;
  }

  lemma AfterPassed(before: State, settled: set<ChunkId>, c: ChunkId)
    requires c in before.queue && c !in settled && (c !in before.chunks || before.chunks[c].refs > 0)
    ensures After(before, settled + {c}) == After(before, settled).(queue := After(before, settled).queue - {c})
  {
    hide HeldOpen;
    assert DeadQueued(before) * (settled + {c}) == DeadQueued(before) * settled;
    assert before.queue - (settled + {c} - KeptQueued(before)) == before.queue - (settled - KeptQueued(before)) - {c};
  }

  lemma AfterKept(before: State, settled: set<ChunkId>, c: ChunkId)
    requires c in KeptQueued(before)
    ensures After(before, settled + {c}) == After(before, settled)
  {
    hide HeldOpen;
    assert DeadQueued(before) * (settled + {c}) == DeadQueued(before) * settled;
    assert before.queue - (settled + {c} - KeptQueued(before)) == before.queue - (settled - KeptQueued(before));
  }

  lemma AfterRemoved(before: State, settled: set<ChunkId>, c: ChunkId)
    requires c in DeadQueued(before) && c !in settled
    ensures var st := After(before, settled);
      After(before, settled + {c})
      == st.(chunks := st.chunks - {c}, store := st.store - {c}, queue := st.queue - {c})
  {
    hide HeldOpen;
    var gone := DeadQueued(before) * settled;
    assert DeadQueued(before) * (settled + {c}) == gone + {c};
    assert before.chunks - (gone + {c}) == before.chunks - gone - {c};
    assert before.store - (gone + {c}) == before.store - gone - {c};
    assert before.queue - (settled + {c} - KeptQueued(before)) == before.queue - (settled - KeptQueued(before)) - {c};
  }

  lemma PassMissing(h: Hashes, start: State, st: State, c: ChunkId)
    requires Reaches(h, start, st) && c in st.listed && c !in st.chunks
    ensures Reaches(h, start, st.(queue := st.queue - {c}))
  {
    hide Reaches, HeldOpen, Named, BeginTx, RegisterTx, PublishTx, CollectTx, ReclaimTx, StageTx, SubmitTx, PutEffect,
      Candidates;
    var read := Advance(h, start, st, DrainReadMissing(c));
    var dropped := Advance(h, start, read, DrainDropMissing(c));
    if c in st.stale {
      assert dropped == st.(queue := st.queue - {c}) by { assert st.stale + {c} == st.stale; }
    } else {
      var forgot := Advance(h, start, dropped, DrainForget(c));
      assert forgot == st.(queue := st.queue - {c}) by { assert st.stale + {c} - {c} == st.stale; }
    }
  }

  lemma PassReferenced(h: Hashes, start: State, st: State, c: ChunkId)
    requires Reaches(h, start, st) && c in st.listed && c in st.chunks && st.chunks[c].refs > 0
    ensures Reaches(h, start, st.(queue := st.queue - {c}))
  {
    hide Reaches, HeldOpen, Named, BeginTx, RegisterTx, PublishTx, CollectTx, ReclaimTx, StageTx, SubmitTx, PutEffect,
      Candidates;
    var dropped := Advance(h, start, st, DrainReferenced(c));
  }

  /** Lock and delete. */
  lemma DeleteUnderLock(h: Hashes, start: State, st: State, c: ChunkId)
    requires Reaches(h, start, st) && st.draining == map[] && c in st.listed
    requires c in st.chunks && st.chunks[c].refs <= 0 && !HeldOpen(st.sessions, st.sessionChunks, c)
    ensures Reaches(h, start, st.(store := st.store - {c}, draining := map[c := true]))
  {
    hide Reaches, HeldOpen, Named, BeginTx, RegisterTx, PublishTx, CollectTx, ReclaimTx, StageTx, SubmitTx, PutEffect,
      Candidates;
    var locked := Advance(h, start, st, DrainLock(c));
    var deleted := Advance(h, start, locked, DrainDelete(c));
    assert deleted.draining == map[c := true];
  }

  lemma AbortDelete(h: Hashes, start: State, st: State, c: ChunkId)
    requires Reaches(h, start, st.(draining := map[c := true])) && st.draining == map[]
    ensures Reaches(h, start, st)
  {
    hide Reaches, HeldOpen, Named, BeginTx, RegisterTx, PublishTx, CollectTx, ReclaimTx, StageTx, SubmitTx, PutEffect,
      Candidates;
    var aborted := Advance(h, start, st.(draining := map[c := true]), DrainAbort(c));
    assert aborted == st by { assert map[c := true] - {c} == map[]; }
  }

  lemma CommitDelete(h: Hashes, start: State, st: State, c: ChunkId)
    requires Reaches(h, start, st.(draining := map[c := true])) && st.draining == map[]
    requires !Named(st.sessionChunks, c)
    ensures Reaches(h, start, st.(chunks := st.chunks - {c}, queue := st.queue - {c}))
  {
    hide Reaches, HeldOpen, Named, BeginTx, RegisterTx, PublishTx, CollectTx, ReclaimTx, StageTx, SubmitTx, PutEffect,
      Candidates;
    var committed := Advance(h, start, st.(draining := map[c := true]), DrainCommit(c));
    assert map[c := true] - {c} == map[];
  }

  /** Lock, delete and, if no session row names the chunk, commit; otherwise abort. */
  lemma DeleteDead(h: Hashes, start: State, st: State, c: ChunkId)
    requires Reaches(h, start, st) && st.draining == map[] && c in st.listed
    requires c in st.chunks && st.chunks[c].refs <= 0 && !HeldOpen(st.sessions, st.sessionChunks, c)
    ensures Reaches(h, start, st.(store := st.store - {c}))
    ensures !Named(st.sessionChunks, c) ==>
      Reaches(h, start, st.(chunks := st.chunks - {c}, store := st.store - {c}, queue := st.queue - {c}))
  {
    hide Reaches, HeldOpen, Named;
    DeleteUnderLock(h, start, st, c);
    var deleted := st.(store := st.store - {c});
    AbortDelete(h, start, deleted, c);
    if !Named(st.sessionChunks, c) {
      CommitDelete(h, start, deleted, c);
    }
  }

  /** Settling any set of entries is a run. */
  lemma {:induction false} SettlingIsARun(h: Hashes, before: State, settled: set<ChunkId>)
    requires Settleable(before, settled)
    ensures Reaches(h, before, After(before, settled))
  {
    hide Reaches, HeldOpen, Named;
    if settled == {} {
      Stay(h, before);
      ForcesReaches(h, before, before);
      AfterNothing(before);
      var listed := Advance(h, before, before, DrainList);
    } else {
      var c :| c in settled;
      var fewer := settled - {c};
      assert settled == fewer + {c};
      assert Settleable(before, fewer);
      SettlingIsARun(h, before, fewer);
      EntryIsARun(h, before, fewer, c);
    }
  }

  lemma EntryIsARun(h: Hashes, before: State, settled: set<ChunkId>, c: ChunkId)
    requires Settleable(before, settled + {c}) && c !in settled && Reaches(h, before, After(before, settled))
    ensures Reaches(h, before, After(before, settled + {c}))
  {
    var st := After(before, settled);
    EntryUntouched(before, settled, c);
    if c !in before.chunks {
      AfterPassed(before, settled, c);
      PassMissing(h, before, st, c);
    } else if before.chunks[c].refs > 0 {
      AfterPassed(before, settled, c);
      PassReferenced(h, before, st, c);
    } else if HeldOpen(before.sessions, before.sessionChunks, c) {
      AfterKept(before, settled, c);
    } else {
      AfterRemoved(before, settled, c);
      assert c in DeadQueued(before) * (settled + {c});
      hide Reaches, HeldOpen, Named;
      DeleteDead(h, before, st, c);
    }
  }

  /** What the call listed stays in the hands of calls in flight. */
  ghost function Listing(before: State, after: State): (r: State) {
    after.(listed := before.listed + before.queue)
  }

  /** A drain call that succeeds is a run of the machine. */
  lemma SuccessIsARun(h: Hashes, before: State, after: State, failing: set<ChunkId>)
    requires before.draining == map[]
    requires forall c :: c in DeadQueued(before) ==> Deletable(before, failing, c)
    requires after == before.(chunks := before.chunks - DeadQueued(before), store := before.store - DeadQueued(before),
                              queue := KeptQueued(before))
    ensures Reaches(h, before, Listing(before, after))
  {
    hide Reaches, HeldOpen, Named, Dead;
    SettlingIsARun(h, before, before.queue);
    assert DeadQueued(before) * before.queue == DeadQueued(before);
    assert before.queue - (before.queue - KeptQueued(before)) == KeptQueued(before);
  }

  /** So is one that fails. */
  lemma FailureIsARun(h: Hashes, before: State, after: State, failing: set<ChunkId>, settled: set<ChunkId>, c: ChunkId)
    requires before.draining == map[] && StopsAt(before, after, failing, settled, c)
    ensures Reaches(h, before, Listing(before, after))
  {
    hide Reaches, HeldOpen, Named;
    assert Settleable(before, settled);
    SettlingIsARun(h, before, settled);
    var st := After(before, settled);
    EntryUntouched(before, settled, c);
    if c in failing {
      assert st.store - {} == st.store;
      assert Listing(before, after) == st;
    } else {
      DeleteDead(h, before, st, c);
      assert Listing(before, after) == st.(store := st.store - {c});
    }
  }

  /** The call itself: whatever it does, and however it ends, some run of the drain steps does the same. */
  method DrainAsRun(server: Server, failing: set<ChunkId>) returns (ok: bool)
    modifies server`chunks, server`queue, server`store
    ensures Reaches(server.h, old(server.View()), Listing(old(server.View()), server.View()))
  {
    hide Reaches, DeadQueued, KeptQueued, StopsAt, Deletable;
    ghost var before := server.View();
    ok := server.DrainChunkQueue(failing);
    if ok {
      SuccessIsARun(server.h, before, server.View(), failing);
    } else {
      ghost var settled, c :| StopsAt(before, server.View(), failing, settled, c);
      FailureIsARun(server.h, before, server.View(), failing, settled, c);
    }
  }
}
