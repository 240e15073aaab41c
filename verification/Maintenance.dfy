/** The set-level meaning of the maintenance loops: collection passes, abandoned chunks, drains. */
module Maintenance {
  import opened Content
  import opened Manifests
  import opened Tables
  import opened Steps
  import opened Invariants
  import opened Publications

  // ------------------------------------------------------------------ collection, in parts

  function ZeroNamed(rows: RowTable, counted: ChunkTable): (r: set<ChunkId>) {
    set k | k in rows && rows[k].id in counted && counted[rows[k].id].refs == 0 :: rows[k].id
  }

  lemma NothingDropped(chunks: ChunkTable)
    ensures DropReferences(chunks, map[]) == chunks
    ensures ZeroNamed(map[], chunks) == {}
  {
    var none: RowTable := map[];
    forall c ensures |Naming(none, c)| == 0 {
      assert Naming(none, c) == {};
    }
  }

  /** Some of a table's rows. */
  ghost predicate RowsAmong(some: RowTable, rows: RowTable) {
    some.Keys <= rows.Keys && forall k :: k in some ==> some[k] == rows[k]
  }

  /** One more row passed over: its chunk's count falls by one, never below zero, and the chunk is
      queued exactly if the count is then zero. */
  lemma PassOverRow(chunks: ChunkTable, rows: RowTable, done: RowTable, k: (Oid, nat))
    requires Counted(chunks, rows) && k in rows && k !in done && RowsAmong(done, rows)
    requires rows[k].id in chunks
    ensures var d := rows[k];
      var before, after := DropReferences(chunks, done), DropReferences(chunks, done[k := d]);
      && d.id in before
      && after == before[d.id := before[d.id].(refs := before[d.id].refs - 1)]
      && 0 <= after[d.id].refs
      && ZeroNamed(done[k := d], after)
         == ZeroNamed(done, before) + (if after[d.id].refs == 0 then {d.id} else {})
  {
    hide Counted, ZeroNamed, Naming;
    var d := rows[k];
    OneFewerReference(chunks, done, k, d);
    CountsCoverRows(chunks, rows, done[k := d], d.id);
    QueuedByPass(chunks, done, k, d);
  }

  lemma OneFewerReference(chunks: ChunkTable, done: RowTable, k: (Oid, nat), d: Descriptor)
    requires k !in done && d.id in chunks
    ensures var before, after := DropReferences(chunks, done), DropReferences(chunks, done[k := d]);
      after == before[d.id := before[d.id].(refs := before[d.id].refs - 1)]
  {
    hide Naming;
    forall c | c in chunks
      ensures |Naming(done[k := d], c)| == |Naming(done, c)| + if d.id == c then 1 else 0
    {
      NamingInsert(done, k, d, c);
    }
  }

  lemma CountsCoverRows(chunks: ChunkTable, rows: RowTable, some: RowTable, c: ChunkId)
    requires Counted(chunks, rows) && c in chunks && RowsAmong(some, rows)
    ensures 0 <= DropReferences(chunks, some)[c].refs
  {
    assert Naming(some, c) <= Naming(rows, c);
    assert Naming(rows, c) == Naming(some, c) + (Naming(rows, c) - Naming(some, c));
  }

  lemma QueuedByPass(chunks: ChunkTable, done: RowTable, k: (Oid, nat), d: Descriptor)
    requires k !in done && d.id in chunks
    requires var before := DropReferences(chunks, done);
      DropReferences(chunks, done[k := d]) == before[d.id := before[d.id].(refs := before[d.id].refs - 1)]
    requires 0 <= DropReferences(chunks, done[k := d])[d.id].refs
    ensures var before, after := DropReferences(chunks, done), DropReferences(chunks, done[k := d]);
      ZeroNamed(done[k := d], after) == ZeroNamed(done, before) + (if after[d.id].refs == 0 then {d.id} else {})
  {
    hide DropReferences, Naming;
    var before, after := DropReferences(chunks, done), DropReferences(chunks, done[k := d]);
    var more := done[k := d];
    forall c
      ensures c in ZeroNamed(more, after) <==> c in ZeroNamed(done, before) || (c == d.id && after[c].refs == 0)
    {
      if c in ZeroNamed(done, before) {
        var j :| j in done && done[j].id == c;
        assert c != d.id;
        assert j in more && more[j].id == c;
      }
      if c == d.id && after[c].refs == 0 {
        assert k in more && more[k].id == c;
      }
    }
  }

  lemma CollectIsPass(st: State, oid: Oid)
    requires CatalogueSound(st.objects, st.objectChunks, st.chunks)
    ensures var owned := RowsOf(st.objectChunks, oid); var counted := DropReferences(st.chunks, owned);
      CollectTx(st, oid) == st.(objects := st.objects - {oid}, objectChunks := st.objectChunks - owned.Keys,
        tombstones := st.tombstones - {oid}, chunks := counted, queue := st.queue + ZeroNamed(owned, counted))
  {
    hide Naming, RowsMatch, WellFormed;
    ReferencesDropped(st.chunks, st.objectChunks, oid);
  }

  /** What collecting a set of objects does: they go with their rows and tombstones, sizes and all
      other objects stay, and the chunks whose last reference went are queued. */
  ghost predicate Collected(before: State, after: State, gone: set<Oid>) {
    && after == before.(objects := before.objects - gone, tombstones := before.tombstones - gone,
                        objectChunks := WithoutObjects(before.objectChunks, gone),
                        chunks := after.chunks, queue := after.queue)
    && after.chunks.Keys == before.chunks.Keys
    && (forall c :: c in before.chunks ==> after.chunks[c].size == before.chunks[c].size)
    && Counted(after.chunks, after.objectChunks)
    && (after.queue
        == before.queue + set c | c in before.chunks && before.chunks[c].refs > 0 && after.chunks[c].refs == 0)
  }

  ghost function WithoutObjects(rows: RowTable, gone: set<Oid>): (r: RowTable) {
    map k | k in rows && k.0 !in gone :: rows[k]
  }

  lemma CollectedNothing(st: State)
    requires Counted(st.chunks, st.objectChunks)
    ensures Collected(st, st, {})
  {
    assert WithoutObjects(st.objectChunks, {}) == st.objectChunks;
    assert st.objects - {} == st.objects && st.tombstones - {} == st.tombstones;
  }

  /** The chunks a pass queues are those whose count it takes to zero. */
  lemma PassQueues(st: State, oid: Oid)
    requires Catalogued(st)
    ensures var r := CollectTx(st, oid);
      r.queue == st.queue + (set c | c in st.chunks && st.chunks[c].refs > 0 && r.chunks[c].refs == 0)
  {
    hide CollectTx, RowsMatch, WellFormed;
    CollectIsPass(st, oid);
    var owned := RowsOf(st.objectChunks, oid);
    var counted := DropReferences(st.chunks, owned);
    var fell := set c | c in st.chunks && st.chunks[c].refs > 0 && counted[c].refs == 0;
    forall c ensures c in ZeroNamed(owned, counted) <==> c in fell {
      NamingNone(owned, c);
      NamingNone(st.objectChunks, c);
      if c in ZeroNamed(owned, counted) {
        var k :| k in owned && owned[k].id == c;
        assert k in st.objectChunks && st.objectChunks[k].id == c;
      }
    }
    assert ZeroNamed(owned, counted) == fell;
  }

  lemma CollectedAlso(before: State, now: State, gone: set<Oid>, oid: Oid)
    requires Collected(before, now, gone) && Catalogued(now) && Counted(before.chunks, before.objectChunks)
    ensures Collected(before, CollectTx(now, oid), gone + {oid})
  {
    hide CollectTx, CatalogueSound, Counted, Naming, DropReferences, RowsOf;
    var r := CollectTx(now, oid);
    PassQueues(now, oid);
    PassKeepsSizes(now, oid);
    PassTables(now, oid);
    WithoutOneMore(before, gone, oid);
    FewerRowsFewerReferences(before, now);
    CollectedQueue(before, now, r);
  }

  lemma PassTables(st: State, oid: Oid)
    requires Catalogued(st)
    ensures var r := CollectTx(st, oid);
      && r == st.(objects := st.objects - {oid}, tombstones := st.tombstones - {oid},
                  objectChunks := WithoutObjects(st.objectChunks, {oid}), chunks := r.chunks, queue := r.queue)
      && Counted(r.chunks, r.objectChunks)
  {
    hide CollectTx, RowsMatch, Counted, WellFormed, DropReferences, ZeroNamed;
    CollectIsPass(st, oid);
    CollectKeepsCatalogue(st, oid);
    assert st.objectChunks - RowsOf(st.objectChunks, oid).Keys == WithoutObjects(st.objectChunks, {oid});
  }

  lemma WithoutOneMore(st: State, gone: set<Oid>, oid: Oid)
    ensures st.objects - gone - {oid} == st.objects - (gone + {oid})
    ensures st.tombstones - gone - {oid} == st.tombstones - (gone + {oid})
    ensures var rows := WithoutObjects(st.objectChunks, gone);
      WithoutObjects(rows, {oid}) == WithoutObjects(st.objectChunks, gone + {oid})
  {
  }

  /** Counts that fall in two stages queue what falls to zero in either. */
  lemma CollectedQueue(a: State, b: State, c: State)
    requires a.chunks.Keys == b.chunks.Keys == c.chunks.Keys
    requires forall k :: k in a.chunks ==>
      0 <= b.chunks[k].refs <= a.chunks[k].refs && c.chunks[k].refs <= b.chunks[k].refs
    requires forall k :: k in a.chunks ==> 0 <= c.chunks[k].refs
    ensures (set k | k in a.chunks && a.chunks[k].refs > 0 && b.chunks[k].refs == 0)
          + (set k | k in b.chunks && b.chunks[k].refs > 0 && c.chunks[k].refs == 0)
         == set k | k in a.chunks && a.chunks[k].refs > 0 && c.chunks[k].refs == 0
  {
  }

  /** Once no remaining tombstone is due, every tombstone that was due has been collected. */
  lemma AllDueGone(tombstones: map<Oid, nat>, now: nat, gone: set<Oid>)
    requires forall oid :: oid in tombstones - gone ==> now < (tombstones - gone)[oid]
    ensures (set oid | oid in tombstones && tombstones[oid] <= now) <= gone
  {
    forall oid | oid in tombstones && tombstones[oid] <= now ensures oid in gone {
      assert oid in gone || oid in tombstones - gone;
    }
  }

  lemma CollectKeepsValid(h: Hashes, st: State, oid: Oid)
    requires Inv(h, st) && Due(st, oid)
    ensures Inv(h, CollectTx(st, oid))
  {
    hide Inv, CollectTx;
    StepKeepsInv(h, st, Collect(oid));
  }

  lemma PassKeepsSizes(st: State, oid: Oid)
    requires Catalogued(st)
    ensures var r := CollectTx(st, oid);
      && r.chunks.Keys == st.chunks.Keys
      && forall c :: c in st.chunks ==>
           r.chunks[c].size == st.chunks[c].size && 0 <= r.chunks[c].refs <= st.chunks[c].refs
  {
    hide CollectTx, RowsMatch, WellFormed, Naming;
    CollectKeepsCatalogue(st, oid);
    ReferencesDropped(st.chunks, st.objectChunks, oid);
  }

  lemma FewerRowsFewerReferences(before: State, after: State)
    requires Counted(before.chunks, before.objectChunks) && Counted(after.chunks, after.objectChunks)
    requires after.chunks.Keys == before.chunks.Keys && after.objectChunks.Keys <= before.objectChunks.Keys
    requires forall k :: k in after.objectChunks ==> after.objectChunks[k] == before.objectChunks[k]
    ensures forall c :: c in before.chunks ==> 0 <= after.chunks[c].refs <= before.chunks[c].refs
  {
    forall c | c in before.chunks ensures 0 <= after.chunks[c].refs <= before.chunks[c].refs {
      var few, many := Naming(after.objectChunks, c), Naming(before.objectChunks, c);
      assert many == few + (many - few);
    }
  }

  ghost function DueAt(st: State): (r: set<Oid>) {
    set oid | oid in st.tombstones && st.tombstones[oid] <= st.now
  }

  /** Mid-collection: the state is consistent, exactly `gone` was collected, `n` objects so far. */
  ghost predicate Collecting(h: Hashes, before: State, st: State, gone: set<Oid>, n: nat) {
    Inv(h, st) && Counted(before.chunks, before.objectChunks) && Collected(before, st, gone)
    && gone <= DueAt(before) && n == |gone|
  }

  lemma CollectingBegins(h: Hashes, st: State)
    requires Inv(h, st)
    ensures Collecting(h, st, st, {}, 0)
  {
    hide Inv, Collected, Counted;
    ValidCounts(h, st);
    CollectedNothing(st);
  }

  lemma CollectingContinues(h: Hashes, before: State, st: State, gone: set<Oid>, n: nat, oid: Oid)
    requires Collecting(h, before, st, gone, n) && Due(st, oid)
    ensures Catalogued(st)
    ensures Collecting(h, before, CollectTx(st, oid), gone + {oid}, n + 1)
    ensures |CollectTx(st, oid).tombstones.Keys| < |st.tombstones.Keys|
  {
    hide Inv, Catalogued, Counted, CollectTx;
    ValidCounts(h, st);
    CollectKeepsValid(h, st, oid);
    CollectedAlso(before, st, gone, oid);
    PassTables(st, oid);
    assert oid !in gone && oid in DueAt(before);
    assert CollectTx(st, oid).tombstones.Keys == st.tombstones.Keys - {oid};
  }

  lemma CollectingEnds(h: Hashes, before: State, st: State, gone: set<Oid>, n: nat)
    requires Collecting(h, before, st, gone, n)
    requires forall oid :: oid in st.tombstones ==> st.now < st.tombstones[oid]
    ensures Inv(h, st) && gone == DueAt(before) && n == |gone| && Collected(before, st, gone)
  {
    hide Inv, Counted;
    AllDueGone(before.tombstones, before.now, gone);
  }

  // ------------------------------------------------------------------ reclamation, in parts

  /** The join of the reclaim query, hold by hold. */
  lemma AbandonedByHolds(chunks: ChunkTable, sessions: SessionTable, held: HoldTable, leaving: set<SessionId>)
    ensures Abandoned(chunks, sessions, held, leaving)
      == set hold | hold in held && hold.0 in leaving && hold.1 in chunks && chunks[hold.1].refs == 0
           && (forall other :: other in held && other.1 == hold.1 ==> !IsOpen(sessions, other.0)) :: hold.1
  {
    forall c
      ensures HeldOpen(sessions, held, c) <==>
        exists other :: other in held && other.1 == c && IsOpen(sessions, other.0)
    {
      ActiveIsHeld(sessions, held, c);
    }
    hide HeldOpen;
    var lhs := Abandoned(chunks, sessions, held, leaving);
    var rhs := set hold | hold in held && hold.0 in leaving && hold.1 in chunks && chunks[hold.1].refs == 0
           && (forall other :: other in held && other.1 == hold.1 ==> !IsOpen(sessions, other.0)) :: hold.1;
    forall c | c in lhs ensures c in rhs {
      var s :| (s, c) in held && s in leaving;
      assert (s, c).1 == c;
    }
    forall c | c in rhs ensures c in lhs {
      var hold :| hold in held && hold.0 in leaving && hold.1 == c;
      assert (hold.0, c) in held;
    }
  }

  lemma ActiveIsHeld(sessions: SessionTable, held: HoldTable, c: ChunkId)
    ensures HeldOpen(sessions, held, c) <==> exists hold :: hold in held && hold.1 == c && IsOpen(sessions, hold.0)
  {
    if HeldOpen(sessions, held, c) {
      var s :| (s, c) in held && IsOpen(sessions, s);
      assert (s, c) in held && (s, c).1 == c;
    }
    if exists hold :: hold in held && hold.1 == c && IsOpen(sessions, hold.0) {
      var hold :| hold in held && hold.1 == c && IsOpen(sessions, hold.0);
      assert (hold.0, c) in held;
    }
  }

  lemma NamedByHold(held: HoldTable, c: ChunkId)
    ensures Named(held, c) <==> exists hold :: hold in held && hold.1 == c
  {
    if Named(held, c) {
      var s :| (s, c) in held;
      assert (s, c).1 == c;
    }
    if exists hold :: hold in held && hold.1 == c {
      var hold :| hold in held && hold.1 == c;
      assert (hold.0, c) in held;
    }
  }

  lemma ValidCounts(h: Hashes, st: State)
    requires Inv(h, st)
    ensures Counted(st.chunks, st.objectChunks) && Catalogued(st)
  {
  }

  // ------------------------------------------------------------------ drains, in parts

  /** Unreferenced, and no open session holds it. */
  ghost predicate Dead(st: State, c: ChunkId) {
    c in st.chunks && st.chunks[c].refs <= 0 && !HeldOpen(st.sessions, st.sessionChunks, c)
  }

  ghost function DeadQueued(st: State): (r: set<ChunkId>) {
    set c | c in st.queue && Dead(st, c)
  }

  /** Queue entries a drain leaves alone: unreferenced chunks some open session holds. */
  ghost function KeptQueued(st: State): (r: set<ChunkId>) {
    set c | c in st.queue && c in st.chunks && st.chunks[c].refs <= 0
            && HeldOpen(st.sessions, st.sessionChunks, c)
  }

  /** What any drain, complete or cut short, leaves behind. */
  ghost predicate Drained(before: State, after: State) {
    && after == before.(chunks := after.chunks, queue := after.queue, store := after.store)
    && after.queue <= before.queue
    && after.store.Keys <= before.store.Keys && after.chunks.Keys <= before.chunks.Keys
    && (forall c :: c in after.store ==> after.store[c] == before.store[c])
    && (forall c :: c in after.chunks ==> after.chunks[c] == before.chunks[c])
    && (forall c :: c in before.store && c !in after.store ==> c in DeadQueued(before))
    && (forall c :: c in before.chunks && c !in after.chunks ==>
          c in DeadQueued(before) && c !in after.store && !Named(before.sessionChunks, c))
    && (forall c :: c in DeadQueued(before) && c in after.chunks ==> c in after.queue)
  }

  /** Mid-drain: the entries outside `rest` have been settled, without a failure. */
  ghost predicate Draining(before: State, st: State, rest: set<ChunkId>, failing: set<ChunkId>) {
    && rest <= before.queue
    && st == before.(chunks := before.chunks - (DeadQueued(before) - rest),
                     store := before.store - (DeadQueued(before) - rest),
                     queue := rest + KeptQueued(before))
    && forall c :: c in DeadQueued(before) - rest ==> Deletable(before, failing, c)
  }

  /** The provider deletes it and no session row of any state names it. */
  ghost predicate Deletable(st: State, failing: set<ChunkId>, c: ChunkId) {
    c !in failing && !Named(st.sessionChunks, c)
  }

  /** A drain that failed at `c`: of the entries settled before, the dead ones lost row, bytes and entry, the kept
      ones stayed and the others were dropped; `c` keeps its row and its entry, and its bytes are gone unless the
      provider refused to delete them; every later entry is untouched. */
  ghost predicate StopsAt(before: State, after: State, failing: set<ChunkId>, settled: set<ChunkId>, c: ChunkId) {
    var gone := DeadQueued(before) * settled;
    && settled <= before.queue && c !in settled && c in DeadQueued(before) && !Deletable(before, failing, c)
    && (forall d :: d in gone ==> Deletable(before, failing, d))
    && after == before.(chunks := before.chunks - gone,
                        store := before.store - gone - (if c in failing then {} else {c}),
                        queue := before.queue - (settled - KeptQueued(before)))
  }

  lemma DrainBegins(st: State, failing: set<ChunkId>)
    ensures Draining(st, st, st.queue, failing)
  {
    hide Dead, HeldOpen;
    assert DeadQueued(st) - st.queue == {};
    assert st.queue + KeptQueued(st) == st.queue;
    assert st.chunks - {} == st.chunks && st.store - {} == st.store;
  }

  lemma DrainPasses(before: State, st: State, rest: set<ChunkId>, failing: set<ChunkId>, c: ChunkId)
    requires Draining(before, st, rest, failing) && c in rest && (c !in st.chunks || st.chunks[c].refs > 0)
    ensures Draining(before, st.(queue := st.queue - {c}), rest - {c}, failing)
  {
    hide HeldOpen;
    assert c !in DeadQueued(before) && c !in KeptQueued(before);
    assert DeadQueued(before) - rest == DeadQueued(before) - (rest - {c});
    assert rest + KeptQueued(before) - {c} == (rest - {c}) + KeptQueued(before);
  }

  lemma DrainKeeps(before: State, st: State, rest: set<ChunkId>, failing: set<ChunkId>, c: ChunkId)
    requires Draining(before, st, rest, failing) && c in rest && c in st.chunks && st.chunks[c].refs <= 0
    requires HeldOpen(st.sessions, st.sessionChunks, c)
    ensures Draining(before, st, rest - {c}, failing)
  {
    hide HeldOpen;
    assert c !in DeadQueued(before) && c in KeptQueued(before);
    assert DeadQueued(before) - rest == DeadQueued(before) - (rest - {c});
    assert rest + KeptQueued(before) == (rest - {c}) + KeptQueued(before);
  }

  lemma DrainRemoves(before: State, st: State, rest: set<ChunkId>, failing: set<ChunkId>, c: ChunkId)
    requires Draining(before, st, rest, failing) && c in rest && c in st.chunks && st.chunks[c].refs <= 0
    requires !HeldOpen(st.sessions, st.sessionChunks, c) && Deletable(before, failing, c)
    ensures Draining(before, st.(store := st.store - {c}, chunks := st.chunks - {c}, queue := st.queue - {c}),
                     rest - {c}, failing)
  {
    hide HeldOpen;
    var dead := DeadQueued(before);
    assert c in dead && c !in KeptQueued(before);
    assert dead - (rest - {c}) == (dead - rest) + {c};
    assert before.store - (dead - rest) - {c} == before.store - ((dead - rest) + {c});
    assert before.chunks - (dead - rest) - {c} == before.chunks - ((dead - rest) + {c});
    assert rest + KeptQueued(before) - {c} == (rest - {c}) + KeptQueued(before);
  }

  lemma DrainLeaves(before: State, st: State, rest: set<ChunkId>, failing: set<ChunkId>)
    requires Draining(before, st, rest, failing)
    ensures Drained(before, st)
  {
    hide HeldOpen;
  }

  /** The drain meets a dead chunk it cannot settle, before or after its provider delete. */
  lemma DrainFails(before: State, st: State, rest: set<ChunkId>, failing: set<ChunkId>, c: ChunkId)
    requires Draining(before, st, rest, failing) && c in rest && c in st.chunks && st.chunks[c].refs <= 0
    requires !HeldOpen(st.sessions, st.sessionChunks, c)
    ensures c in DeadQueued(before)
    ensures !Deletable(before, failing, c) ==>
      StopsAt(before, if c in failing then st else st.(store := st.store - {c}), failing, before.queue - rest, c)
  {
    hide HeldOpen;
    var settled := before.queue - rest;
    assert DeadQueued(before) * settled == DeadQueued(before) - rest;
    assert before.queue - (settled - KeptQueued(before)) == rest + KeptQueued(before);
    assert before.store - (DeadQueued(before) - rest) - {} == before.store - (DeadQueued(before) - rest);
  }

  lemma StopLeaves(before: State, after: State, failing: set<ChunkId>, settled: set<ChunkId>, c: ChunkId)
    requires StopsAt(before, after, failing, settled, c)
    ensures Drained(before, after)
  {
    hide HeldOpen;
  }

  lemma DrainEnds(before: State, st: State, failing: set<ChunkId>)
    requires Draining(before, st, {}, failing)
    ensures st.chunks == before.chunks - DeadQueued(before)
    ensures st.store == before.store - DeadQueued(before)
    ensures st.queue == KeptQueued(before)
    ensures forall c :: c in DeadQueued(before) ==> Deletable(before, failing, c)
  {
    hide HeldOpen, Dead;
    assert DeadQueued(before) - {} == DeadQueued(before);
  }
}
