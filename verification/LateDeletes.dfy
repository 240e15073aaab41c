/** Provider deletes that land late.

    A drain awaits its provider delete inside the transaction that locks the chunk row. If the database
    connection drops meanwhile, the lock is gone but the delete may still land, at any later time. Here
    the server's state machine is extended by exactly that, and the condition under which stored bytes
    survive it is proved exact. */
module LateDeletes {
  import opened Content
  import opened Manifests
  import opened Tables
  import opened Steps
  import opened Invariants
  import opened LiveBytes
  import opened Schedules
  import opened FinalizeRace
  import opened Cleanup

  /** The server, and the chunks whose provider delete is under way without a lock. */
  datatype Machine = Machine(st: State, late: set<ChunkId>)

  datatype Move =
    | Ordinary(step: Step)
    | Disconnect(chunk: ChunkId)  // the drain loses its transaction while its delete is under way
    | Land(chunk: ChunkId)        // such a delete removes the bytes
    | Settle(chunk: ChunkId)      // no such delete of the chunk is under way any more

  ghost predicate CanMove(x: Machine, move: Move) {
    match move
    case Ordinary(step) => Enabled(x.st, step)
    case Disconnect(c) => c in x.st.draining
    case Land(c) => c in x.late
    case Settle(c) => c in x.late
  }

  ghost function After(h: Hashes, x: Machine, move: Move): (r: Machine)
    requires CanMove(x, move)
  {
    match move
    case Ordinary(step) => x.(st := Apply(h, x.st, step))
    case Disconnect(c) => Machine(x.st.(draining := x.st.draining - {c}), x.late + {c})
    case Land(c) => x.(st := x.st.(store := x.st.store - {c}))
    case Settle(c) => x.(late := x.late - {c})
  }

  datatype History = History(states: seq<Machine>, moves: seq<Move>) {
    function Last(): (x: Machine)
      requires |states| == |moves| + 1
    {
      states[|moves|]
    }
  }

  ghost predicate IsHistory(h: Hashes, start: Machine, run: History) {
    && |run.states| == |run.moves| + 1 && run.states[0] == start
    && forall i :: 0 <= i < |run.moves| ==>
         CanMove(run.states[i], run.moves[i]) && run.states[i + 1] == After(h, run.states[i], run.moves[i])
  }

  ghost predicate Leads(h: Hashes, before: Machine, after: Machine) {
    exists run: History :: IsHistory(h, before, run) && run.Last() == after
  }

  // ------------------------------------------------------------------ what survives without acknowledgements

  /** Late deletes can break one promise only: that an acknowledged chunk of an open session is stored. */
  ghost function Unacknowledged(st: State): (r: State) {
    st.(acked := {})
  }

  ghost predicate Sound(h: Hashes, x: Machine) {
    Inv(h, Unacknowledged(x.st))
  }

  lemma InvIsSound(h: Hashes, st: State, late: set<ChunkId>)
    requires Inv(h, st)
    ensures Sound(h, Machine(st, late))
  {
    hide CatalogueSound;
  }

  lemma EnabledIgnoresAcks(st: State, step: Step)
    ensures Enabled(Unacknowledged(st), step) <==> Enabled(st, step)
  {
    hide WellFormed, EnsureRows, AddReferences, ObjectRows, Finalize;
  }

  lemma BeginReadsSessions(st: State, drawn: SessionId, m: Manifest)
    ensures BeginTx(Unacknowledged(st), drawn, m).0.sessions == BeginTx(st, drawn, m).0.sessions
    ensures BeginTx(Unacknowledged(st), drawn, m).0.issued == BeginTx(st, drawn, m).0.issued
  {
    hide WellFormed, ExpireStale;
    match OpenSessionOf(ExpireStale(st.sessions, st.now, m.oid), m.oid) {
      case Some(_) =>
      case None =>
    }
  }

  lemma BeginIgnoresAcks(st: State, drawn: SessionId, m: Manifest)
    ensures BeginTx(Unacknowledged(st), drawn, m).0 == Unacknowledged(BeginTx(st, drawn, m).0)
  {
    BeginReadsSessions(st, drawn, m);
    hide BeginTx;
  }

  lemma PublishIgnoresAcks(st: State, s: SessionId)
    ensures PublishTx(Unacknowledged(st), s).0 == Unacknowledged(PublishTx(st, s).0)
  {
    assert Finalizable(Unacknowledged(st), s) == Finalizable(st, s);
    hide Finalizable, WellFormed, EnsureRows, AddReferences, ObjectRows, Finalize;
    if !Creates(st, s) {
      assert !Creates(Unacknowledged(st), s);
    }
  }

  lemma RegisterIgnoresAcks(st: State, s: SessionId, i: nat, data: Bytes)
    requires Uploadable(st, s, i, data)
    ensures RegisterTx(Unacknowledged(st), s, i, data) == Unacknowledged(RegisterTx(st, s, i, data))
  {
    var d := st.sessions[s].manifest.chunks[i];
    assert SizeAgrees(Unacknowledged(st), d) == SizeAgrees(st, d);
    hide SizeAgrees;
  }

  lemma PutIgnoresAcks(h: Hashes, st: State, p: PendingPut)
    ensures Unacknowledged(PutEffect(h, Unacknowledged(st), p)) == Unacknowledged(PutEffect(h, st, p))
  {
    hide PutVerified;
  }

  lemma CollectIgnoresAcks(st: State, oid: Oid)
    ensures CollectTx(Unacknowledged(st), oid) == Unacknowledged(CollectTx(st, oid))
  {
    hide RowsOf, DropReferences;
  }

  lemma ReclaimIgnoresAcks(st: State, grace: nat)
    ensures ReclaimTx(Unacknowledged(st), grace) == Unacknowledged(ReclaimTx(st, grace))
  {
    hide ExpireAll, Removable, Abandoned, Released;
  }

  lemma StagingIgnoresAcks(st: State)
    ensures forall plan, grace :: StageTx(Unacknowledged(st), plan, grace) == Unacknowledged(StageTx(st, plan, grace))
    ensures Candidates(Unacknowledged(st)) == Candidates(st)
  {
    hide Unreachable;
  }

  /** Acknowledgements decide nothing. */
  lemma StepIgnoresAcks(h: Hashes, st: State, step: Step)
    requires Enabled(st, step)
    ensures Enabled(Unacknowledged(st), step)
    ensures Unacknowledged(Apply(h, Unacknowledged(st), step)) == Unacknowledged(Apply(h, st, step))
  {
    EnabledIgnoresAcks(st, step);
    if step.Register? {
      hide RegisterTx;
      RegisterIgnoresAcks(st, step.session, step.index, step.data);
    } else if step.Begin? || step.Put? || step.Publish? || step.Collect? || step.Reclaim? {
      TransactionIgnoresAcks(h, st, step);
    } else {
      OtherIgnoresAcks(h, st, step);
    }
  }

  lemma TransactionIgnoresAcks(h: Hashes, st: State, step: Step)
    requires Enabled(st, step) && Enabled(Unacknowledged(st), step)
    requires step.Begin? || step.Put? || step.Publish? || step.Collect? || step.Reclaim?
    ensures Unacknowledged(Apply(h, Unacknowledged(st), step)) == Unacknowledged(Apply(h, st, step))
  {
    hide Enabled, BeginTx, PublishTx, PutEffect, CollectTx, ReclaimTx;
    match step {
      case Begin(drawn, m) => BeginIgnoresAcks(st, drawn, m);
      case Put(p) => PutIgnoresAcks(h, st, p);
      case Publish(s) => PublishIgnoresAcks(st, s);
      case Collect(oid) => CollectIgnoresAcks(st, oid);
      case Reclaim(grace) => ReclaimIgnoresAcks(st, grace);
    }
  }

  lemma OtherIgnoresAcks(h: Hashes, st: State, step: Step)
    requires Enabled(st, step) && Enabled(Unacknowledged(st), step)
    requires !(step.Register? || step.Begin? || step.Put? || step.Publish? || step.Collect? || step.Reclaim?)
    ensures Unacknowledged(Apply(h, Unacknowledged(st), step)) == Unacknowledged(Apply(h, st, step))
  {
    StagingIgnoresAcks(st);
    hide Enabled, StageTx, Candidates;
  }

  lemma MoveKeepsSound(h: Hashes, x: Machine, move: Move)
    requires Sound(h, x) && CanMove(x, move)
    ensures Sound(h, After(h, x, move))
  {
    match move {
      case Ordinary(step) =>
        hide Inv, Enabled, Apply;
        StepIgnoresAcks(h, x.st, step);
        StepKeepsInv(h, Unacknowledged(x.st), step);
        InvIsSound(h, Apply(h, Unacknowledged(x.st), step), x.late);
      case _ => hide CatalogueSound;
    }
  }

  // ------------------------------------------------------------------ protected chunks

  /** Referenced by a live object, or registered to an open session. */
  ghost predicate Protected(st: State, c: ChunkId) {
    (c in st.chunks && st.chunks[c].refs > 0) || HeldOpen(st.sessions, st.sessionChunks, c)
  }

  lemma ProtectedIsUnlocked(h: Hashes, x: Machine, c: ChunkId)
    requires Sound(h, x) && Protected(x.st, c)
    ensures c !in x.st.draining
  {
    hide CatalogueSound;
  }

  lemma StepKeepsStored(h: Hashes, st: State, step: Step, c: ChunkId)
    requires Enabled(st, step) && c !in st.draining && c in st.store
    ensures var r := Apply(h, st, step); c in r.store && r.store[c] == st.store[c]
  {
    hide BeginTx, RegisterTx, PublishTx, CollectTx, ReclaimTx, StageTx, SubmitTx, Candidates, HeldOpen, Named,
      Creates, Uploadable;
    Frame(h, st, step);
  }

  /** While a chunk is protected no delete of it comes under way, and only a late delete removes its bytes. */
  lemma MoveKeepsProtected(h: Hashes, x: Machine, move: Move, c: ChunkId)
    requires Sound(h, x) && CanMove(x, move) && Protected(x.st, c) && c in x.st.store && c !in x.late
    ensures var r := After(h, x, move); c !in r.late && c in r.st.store && r.st.store[c] == x.st.store[c]
  {
    ProtectedIsUnlocked(h, x, c);
    hide Sound, Protected, Enabled, Apply;
    match move {
      case Ordinary(step) => StepKeepsStored(h, x.st, step, c);
      case _ =>
    }
  }

  /** However things go on, the chunk's bytes stay as long as the chunk stays protected. */
  ghost predicate Kept(h: Hashes, x: Machine, c: ChunkId)
    requires c in x.st.store
  {
    forall run: History ::
      IsHistory(h, x, run) && (forall i :: 0 <= i < |run.states| ==> Protected(run.states[i].st, c)) ==>
        c in run.Last().st.store && run.Last().st.store[c] == x.st.store[c]
  }

  lemma {:induction false} ProtectedStays(h: Hashes, x: Machine, run: History, c: ChunkId, n: nat)
    requires Sound(h, x) && IsHistory(h, x, run) && n <= |run.moves| && c in x.st.store && c !in x.late
    requires forall i :: 0 <= i < |run.states| ==> Protected(run.states[i].st, c)
    ensures Sound(h, run.states[n])
    ensures c !in run.states[n].late && c in run.states[n].st.store && run.states[n].st.store[c] == x.st.store[c]
  {
    hide Sound, Protected, CanMove, After;
    if n > 0 {
      ProtectedStays(h, x, run, c, n - 1);
      assert CanMove(run.states[n - 1], run.moves[n - 1]);
      MoveKeepsSound(h, run.states[n - 1], run.moves[n - 1]);
      MoveKeepsProtected(h, run.states[n - 1], run.moves[n - 1], c);
    }
  }

  /** Exactly when bytes survive late deletes: a stored chunk that a live object references or an open session
      holds keeps its bytes under every interleaving, for as long as it stays so, if and only if no delete of it
      is under way without its lock. */
  lemma KeptExactlyWhenNoLateDelete(h: Hashes, x: Machine, c: ChunkId)
    requires Sound(h, x) && c in x.st.store && Protected(x.st, c)
    ensures Kept(h, x, c) <==> c !in x.late
  {
    hide Sound, Protected;
    if c in x.late {
      var landed := After(h, x, Land(c));
      var run := History([x, landed], [Land(c)]);
      assert CanMove(x, Land(c)) && IsHistory(h, x, run);
      LandKeepsProtected(h, x, c);
      assert forall i :: 0 <= i < |run.states| ==> Protected(run.states[i].st, c);
      assert c !in run.Last().st.store;
    } else {
      forall run: History |
        IsHistory(h, x, run) && (forall i :: 0 <= i < |run.states| ==> Protected(run.states[i].st, c))
        ensures c in run.Last().st.store && run.Last().st.store[c] == x.st.store[c]
      {
        hide IsHistory;
        ProtectedStays(h, x, run, c, LengthOf(h, x, run));
      }
    }
  }

  ghost function LengthOf(h: Hashes, x: Machine, run: History): (n: nat)
    requires IsHistory(h, x, run)
    ensures n == |run.moves| && |run.states| == n + 1
  {
    |run.moves|
  }

  lemma LandKeepsProtected(h: Hashes, x: Machine, c: ChunkId)
    requires Protected(x.st, c) && c in x.late
    ensures Protected(After(h, x, Land(c)).st, c)
  {
  }

  // ------------------------------------------------------------------ live objects

  /** However things go on, the object keeps its manifest and bytes as long as it is live. */
  ghost predicate ObjectKept(h: Hashes, x: Machine, m: Manifest) {
    forall run: History ::
      IsHistory(h, x, run) && (forall i :: 0 <= i < |run.states| ==> m.oid in run.states[i].st.objects) ==>
        Intact(run.Last().st, m, x.st.store)
  }

  lemma LiveIsProtected(h: Hashes, x: Machine, oid: Oid, c: ChunkId)
    requires Sound(h, x) && oid in x.st.objects && c in Ids(x.st.objects[oid])
    ensures Protected(x.st, c)
  {
    hide Ids;
    LiveChunkReferenced(h, Unacknowledged(x.st), oid, c);
  }

  lemma MoveKeepsManifest(h: Hashes, x: Machine, move: Move, oid: Oid)
    requires Sound(h, x) && CanMove(x, move) && oid in x.st.objects && oid in After(h, x, move).st.objects
    ensures After(h, x, move).st.objects[oid] == x.st.objects[oid]
  {
    match move {
      case Ordinary(step) =>
        SoundIsCatalogued(h, x);
        hide Sound, Enabled, Apply;
        StepKeepsManifest(h, x.st, step, oid);
      case _ =>
    }
  }

  lemma SoundIsCatalogued(h: Hashes, x: Machine)
    requires Sound(h, x)
    ensures Catalogued(x.st)
  {
    hide CatalogueSound;
  }

  lemma {:induction false} LiveObjectStays(h: Hashes, x: Machine, run: History, m: Manifest, n: nat)
    requires Sound(h, x) && IsHistory(h, x, run) && n <= |run.moves|
    requires Intact(x.st, m, x.st.store) && Ids(m) !! x.late
    requires forall i :: 0 <= i < |run.states| ==> m.oid in run.states[i].st.objects
    ensures Sound(h, run.states[n]) && Ids(m) !! run.states[n].late
    ensures Intact(run.states[n].st, m, x.st.store)
  {
    hide Sound, CanMove, After, Ids;
    if n > 0 {
      LiveObjectStays(h, x, run, m, n - 1);
      var before, move, after := run.states[n - 1], run.moves[n - 1], run.states[n];
      assert CanMove(before, move);
      MoveKeepsSound(h, before, move);
      MoveKeepsManifest(h, before, move, m.oid);
      forall c | c in Ids(m)
        ensures c !in after.late && c in after.st.store && after.st.store[c] == x.st.store[c]
      {
        LiveIsProtected(h, before, m.oid, c);
        MoveKeepsProtected(h, before, move, c);
      }
    }
  }

  /** Exactly when a live object survives late deletes: it keeps every byte under every interleaving, for as long
      as it is live, if and only if no delete of one of its chunks is under way without its lock. */
  lemma ObjectKeptExactlyWhenNoLateDelete(h: Hashes, x: Machine, m: Manifest)
    requires Sound(h, x) && Intact(x.st, m, x.st.store)
    ensures ObjectKept(h, x, m) <==> Ids(m) !! x.late
  {
    hide Sound, Ids;
    if Ids(m) !! x.late {
      forall run: History |
        IsHistory(h, x, run) && (forall i :: 0 <= i < |run.states| ==> m.oid in run.states[i].st.objects)
        ensures Intact(run.Last().st, m, x.st.store)
      {
        hide IsHistory;
        LiveObjectStays(h, x, run, m, LengthOf(h, x, run));
      }
    } else {
      var c :| c in Ids(m) && c in x.late;
      var run := History([x, After(h, x, Land(c))], [Land(c)]);
      assert CanMove(x, Land(c)) && IsHistory(h, x, run);
      assert forall i :: 0 <= i < |run.states| ==> m.oid in run.states[i].st.objects;
      assert c !in run.Last().st.store;
    }
  }

  // ------------------------------------------------------------------ it happens

  lemma Start(h: Hashes, x: Machine)
    ensures Leads(h, x, x)
  {
    assert IsHistory(h, x, History([x], []));
  }

  lemma Onward(h: Hashes, before: Machine, x: Machine, move: Move) returns (after: Machine)
    requires Leads(h, before, x) && CanMove(x, move)
    ensures Leads(h, before, after) && after == After(h, x, move)
  {
    hide CanMove, After;
    var run: History :| IsHistory(h, before, run) && run.Last() == x;
    after := After(h, x, move);
    var longer := History(run.states + [after], run.moves + [move]);
    assert IsHistory(h, before, longer) && longer.Last() == after;
  }

  /** A run of the server is a run of the machine. */
  lemma Lift(h: Hashes, before: Machine, st: State, late: set<ChunkId>, after: State)
    requires Leads(h, before, Machine(st, late)) && Reaches(h, st, after)
    ensures Leads(h, before, Machine(after, late))
  {
    hide Enabled, Apply, Leads;
    var run: Run :| RunFrom(h, st, run) && run.Last() == after;
    LiftPrefix(h, before, run, late, |run.steps|);
  }

  lemma {:induction false} LiftPrefix(h: Hashes, before: Machine, run: Run, late: set<ChunkId>, n: nat)
    requires IsRun(h, run) && n <= |run.steps| && Leads(h, before, Machine(run.states[0], late))
    ensures Leads(h, before, Machine(run.states[n], late))
  {
    hide Enabled, Apply, Leads;
    if n > 0 {
      LiftPrefix(h, before, run, late, n - 1);
      assert Next(h, run.states[n - 1], run.steps[n - 1], run.states[n]);
      var after := Onward(h, before, Machine(run.states[n - 1], late), Ordinary(run.steps[n - 1]));
    }
  }

  /** An abandoned upload is reclaimed, and the drain has locked its chunk. */
  lemma LockAbandoned(h: Hashes, m: Manifest) returns (r: State)
    requires m == OneByteManifest(h, m.oid)
    ensures Reaches(h, EMPTY, r)
    ensures r == EMPTY.(now := SESSION_LIFETIME, issued := {0}, puts := r.puts, acked := r.acked,
                        chunks := map[h.blake3([0]) := ChunkRow(1, 0)], store := map[h.blake3([0]) := [0]],
                        queue := {h.blake3([0])}, listed := {h.blake3([0])}, draining := map[h.blake3([0]) := false])
  {
    hide BeginTx, RegisterTx, PublishTx, CollectTx, ReclaimTx, Reaches, Forces, HeldOpen;
    var c := h.blake3([0]);
    var uploaded := UploadOneByte(h, m);
    ForcesReaches(h, EMPTY, uploaded);
    var late := Advance(h, EMPTY, uploaded, Tick(SESSION_LIFETIME));
    AbandonedReclaimed(late, m, c);
    var reclaimed := Advance(h, EMPTY, late, Reclaim(0));
    NothingHeld(reclaimed.sessions, c);
    var listed := Advance(h, EMPTY, reclaimed, DrainList);
    r := Advance(h, EMPTY, listed, DrainLock(c));
  }

  /** After the drain lost its lock the same file is uploaded again and published. */
  lemma UploadAgain(h: Hashes, st: State, m: Manifest) returns (r: State)
    requires m == OneByteManifest(h, m.oid) && Inv(h, st)
    requires st == EMPTY.(now := SESSION_LIFETIME, issued := {0}, puts := st.puts, acked := st.acked,
                          chunks := map[h.blake3([0]) := ChunkRow(1, 0)], store := map[h.blake3([0]) := [0]],
                          queue := {h.blake3([0])}, listed := {h.blake3([0])})
    ensures Reaches(h, st, r) && r.store == st.store && m.oid in r.objects && r.objects[m.oid] == m
  {
    hide BeginTx, RegisterTx, PublishTx, CollectTx, ReclaimTx, Reaches, Forces, Inv, Creates;
    SingleChunkWellFormed(m);
    Stay(h, st);
    NewBegin(st, 1, m);
    var begun := Go(h, st, st, Begin(1, m));
    var held := Go(h, st, begun, Register(1, 0, [0]));
    ForcesInv(h, st, held);
    PublishWouldCreate(h, held, 1);
    PublishCreates(held, 1);
    r := Go(h, st, held, Publish(1));
    ForcesReaches(h, st, r);
  }

  /** The situation is reachable, for every pair of hash functions: a drain locks an abandoned chunk and loses its
      lock while its delete is under way; the file is uploaded again, every chunk registered and stored, and
      published; the object is live and whole, and can still lose its byte. */
  lemma LateDeleteLosesLiveObject(h: Hashes) returns (x: Machine, m: Manifest)
    ensures Leads(h, Machine(EMPTY, {}), x)
    ensures m.oid in x.st.objects && x.st.objects[m.oid] == m && Reconstructs(h, x.st.store, m)
    ensures !ObjectKept(h, x, m)
  {
    hide Reaches, Leads, ObjectKept, Inv, Sound;
    var c := h.blake3([0]);
    m := OneByteManifest(h, h.sha256([0]));
    EmptyInv(h);
    Start(h, Machine(EMPTY, {}));
    var locked := LockAbandoned(h, m);
    Lift(h, Machine(EMPTY, {}), EMPTY, {}, locked);
    var lost := Onward(h, Machine(EMPTY, {}), Machine(locked, {}), Disconnect(c));
    assert lost.st.draining == map[] && lost.late == {c};
    AbortIsDisconnect(h, locked, lost.st, c);
    var again := UploadAgain(h, lost.st, m);
    Lift(h, Machine(EMPTY, {}), lost.st, lost.late, again);
    x := Machine(again, {c});
    assert Inv(h, again) by { ReachedInv(h, lost.st, again); }
    InvIsSound(h, again, {c});
    OneByteReconstructs(h, again.store, m);
    assert m.chunks[0].id in Ids(m);
    ObjectKeptExactlyWhenNoLateDelete(h, x, m);
  }

  lemma AbortIsDisconnect(h: Hashes, locked: State, st: State, c: ChunkId)
    requires Reaches(h, EMPTY, locked) && c in locked.draining && st == locked.(draining := locked.draining - {c})
    ensures Inv(h, st)
  {
    hide Inv, Reaches;
    ReachableInv(h, locked);
    StepKeepsInv(h, locked, DrainAbort(c));
  }

  lemma ReachedInv(h: Hashes, st: State, later: State)
    requires Inv(h, st) && Reaches(h, st, later)
    ensures Inv(h, later)
  {
    hide Inv, Enabled, Apply;
    var run: Run :| RunFrom(h, st, run) && run.Last() == later;
    RunKeepsInv(h, run, |run.steps|);
  }

  lemma OneByteReconstructs(h: Hashes, store: map<ChunkId, Bytes>, m: Manifest)
    requires m == OneByteManifest(h, h.sha256([0])) && store == map[h.blake3([0]) := [0]]
    ensures Reconstructs(h, store, m)
  {
    assert m.chunks[0].id in Ids(m);
    assert Tables.Stored(store, m) == [[0]];
    assert Concat([[0 as byte]]) == [0] by {
      assert [[0 as byte]][..0] == [];
      ConcatSnoc([], [0]);
    }
  }
}
