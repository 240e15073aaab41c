/** The server as a state machine: transactions, provider calls and clock ticks of any number of
    concurrent requests, interleaved in any order. */
module Steps {
  import opened Content
  import opened Manifests
  import opened Tables

  datatype Step =
    | Tick(seconds: nat)
    | Begin(drawn: SessionId, manifest: Manifest)
    | Register(session: SessionId, index: nat, data: Bytes)
    | Put(put: PendingPut)
    | Publish(session: SessionId)
    | Submit(epoch: EpochId, startedAt: nat, oids: seq<Oid>)
    | DryRun
    | Stage(plan: set<Oid>, grace: nat)
    | Collect(oid: Oid)
    | Reclaim(grace: nat)
    | DrainList
    | DrainReferenced(chunk: ChunkId)  // row referenced: the queue entry is dropped
    | DrainReadMissing(chunk: ChunkId) // no row found, entry not yet dropped
    | DrainDropMissing(chunk: ChunkId) // …and now dropped
    | DrainForget(chunk: ChunkId)      // the last such call ended
    | DrainLock(chunk: ChunkId)        // row locked, unreferenced, not held: deletion decided
    | DrainDelete(chunk: ChunkId)      // provider delete, before the commit
    | DrainCommit(chunk: ChunkId)
    | DrainAbort(chunk: ChunkId)       // crash, provider failure or foreign-key violation

  /** The publish transaction updates the manifest's chunk rows only when it creates the object. */
  predicate Creates(st: State, s: SessionId) {
    PublishTx(st, s).1 == Created
  }

  /** When a step can happen. Steps that need a chunk row's lock wait while a drain holds it:
      registration upserts the row, and creating an object updates it. */
  ghost predicate Enabled(st: State, step: Step) {
    match step
    case Tick(_) => true
    case Begin(drawn, _) => drawn !in st.issued
    case Register(s, index, data) =>
      && Uploadable(st, s, index, data)
      && st.sessions[s].manifest.chunks[index].id !in st.draining
    case Put(p) => p in st.puts
    case Publish(s) => Creates(st, s) ==> Ids(st.sessions[s].manifest) !! st.draining.Keys
    case Submit(id, startedAt, _) => id !in st.epochs && startedAt <= st.now
    case DryRun => true
    case Stage(plan, _) => plan in st.plans
    case Collect(oid) => Due(st, oid)
    case Reclaim(_) => true
    case DrainList => true
    case DrainReferenced(c) => c in st.listed && c in st.chunks && st.chunks[c].refs > 0
    case DrainReadMissing(c) => c in st.listed && c !in st.chunks
    case DrainDropMissing(c) => c in st.stale
    case DrainForget(c) => c in st.stale
    case DrainLock(c) =>
      && c in st.listed && c in st.chunks && c !in st.draining
      && st.chunks[c].refs <= 0 && !HeldOpen(st.sessions, st.sessionChunks, c)
    case DrainDelete(c) => c in st.draining
    case DrainCommit(c) => c in st.draining && st.draining[c] && !Named(st.sessionChunks, c)
    case DrainAbort(c) => c in st.draining
  }

  ghost function Apply(h: Hashes, st: State, step: Step): (r: State)
    requires Enabled(st, step)
  {
    match step
    case Tick(seconds) => st.(now := st.now + seconds)
    case Begin(drawn, m) => BeginTx(st, drawn, m).0
    case Register(s, index, data) => RegisterTx(st, s, index, data)
    case Put(p) => PutEffect(h, st, p)
    case Publish(s) => PublishTx(st, s).0
    case Submit(id, startedAt, oids) => SubmitTx(st, id, startedAt, oids)
    case DryRun => st.(plans := st.plans + {Candidates(st)})
    case Stage(plan, grace) => StageTx(st, plan, grace)
    case Collect(oid) => CollectTx(st, oid)
    case Reclaim(grace) => ReclaimTx(st, grace)
    case DrainList => st.(listed := st.listed + st.queue)
    case DrainReferenced(c) => st.(queue := st.queue - {c})
    case DrainReadMissing(c) => st.(stale := st.stale + {c})
    case DrainDropMissing(c) => st.(queue := st.queue - {c})
    case DrainForget(c) => st.(stale := st.stale - {c})
    case DrainLock(c) => st.(draining := st.draining[c := false])
    case DrainDelete(c) => st.(store := st.store - {c}, draining := st.draining[c := true])
    case DrainCommit(c) =>
      st.(chunks := st.chunks - {c}, queue := st.queue - {c}, draining := st.draining - {c})
    case DrainAbort(c) => st.(draining := st.draining - {c})
  }

  /** Which tables a step can change. */
  ghost predicate TablesFramed(st: State, step: Step, r: State) {
    && (step.Begin? || step.Publish? || step.Reclaim? || r.sessions == st.sessions)
    && (step.Register? || step.Reclaim? || r.sessionChunks == st.sessionChunks)
    && (step.Register? || step.Publish? || step.Collect? || step.DrainCommit? || r.chunks == st.chunks)
    && (step.Publish? || step.Collect? || r.objects == st.objects)
    && (step.Publish? || step.Collect? || r.objectChunks == st.objectChunks)
    && (step.Put? || step.DrainDelete? || r.store == st.store)
    && (step.DrainLock? || step.DrainDelete? || step.DrainCommit? || step.DrainAbort?
        || r.draining == st.draining)
  }

  ghost predicate CallsFramed(st: State, step: Step, r: State) {
    && (step.Tick? || r.now == st.now)
    && (step.Begin? || r.issued == st.issued)
    && (step.Register? || r.puts == st.puts)
    && (step.Put? || r.acked == st.acked)
    && (step.DryRun? || r.plans == st.plans)
    && (step.DrainList? || r.listed == st.listed)
    && (step.DrainReadMissing? || step.DrainForget? || r.stale == st.stale)
  }

  ghost predicate CollectionFramed(st: State, step: Step, r: State) {
    && (step.Stage? || step.Collect? || r.tombstones == st.tombstones)
    && (step.Collect? || step.Reclaim? || step.DrainReferenced? || step.DrainDropMissing?
        || step.DrainCommit? || r.queue == st.queue)
    && (step.Submit? || r.epochs == st.epochs)
  }

  lemma Frame(h: Hashes, st: State, step: Step)
    requires Enabled(st, step)
    ensures TablesFramed(st, step, Apply(h, st, step))
    ensures CallsFramed(st, step, Apply(h, st, step))
    ensures CollectionFramed(st, step, Apply(h, st, step))
  {
    FrameTables(h, st, step);
    FrameCalls(h, st, step);
    FrameCollection(h, st, step);
    hide *;
  }

  lemma FrameTables(h: Hashes, st: State, step: Step)
    requires Enabled(st, step)
    ensures TablesFramed(st, step, Apply(h, st, step))
  {
    hide Enabled, BeginTx, RegisterTx, PutEffect, PublishTx, SubmitTx, StageTx, CollectTx, ReclaimTx, Candidates;
    match step {
      case Begin(_, _) =>
      case Register(_, _, _) =>
      case Put(_) =>
      case Publish(_) =>
      case Submit(_, _, _) =>
      case Stage(_, _) =>
      case Collect(_) =>
      case Reclaim(_) =>
      case _ =>
    }
  }

  lemma FrameCalls(h: Hashes, st: State, step: Step)
    requires Enabled(st, step)
    ensures CallsFramed(st, step, Apply(h, st, step))
  {
    hide Enabled, BeginTx, RegisterTx, PutEffect, PublishTx, SubmitTx, StageTx, CollectTx, ReclaimTx, Candidates;
    match step {
      case Begin(_, _) =>
      case Register(_, _, _) =>
      case Put(_) =>
      case Publish(_) =>
      case Submit(_, _, _) =>
      case Stage(_, _) =>
      case Collect(_) =>
      case Reclaim(_) =>
      case _ =>
    }
  }

  lemma FrameCollection(h: Hashes, st: State, step: Step)
    requires Enabled(st, step)
    ensures CollectionFramed(st, step, Apply(h, st, step))
  {
    hide Enabled, BeginTx, RegisterTx, PutEffect, PublishTx, SubmitTx, StageTx, CollectTx, ReclaimTx, Candidates;
    match step {
      case Begin(_, _) =>
      case Register(_, _, _) =>
      case Put(_) =>
      case Publish(_) =>
      case Submit(_, _, _) =>
      case Stage(_, _) =>
      case Collect(_) =>
      case Reclaim(_) =>
      case _ =>
    }
  }

  ghost predicate Next(h: Hashes, before: State, step: Step, after: State) {
    Enabled(before, step) && after == Apply(h, before, step)
  }

  /** A finite history: `states[i]` goes to `states[i + 1]` by `steps[i]`. */
  datatype Run = Run(states: seq<State>, steps: seq<Step>) {
    function Last(): (st: State)
      requires |states| == |steps| + 1
    {
      states[|steps|]
    }
  }

  ghost predicate IsRun(h: Hashes, run: Run) {
    && |run.states| == |run.steps| + 1
    && forall i :: 0 <= i < |run.steps| ==> Next(h, run.states[i], run.steps[i], run.states[i + 1])
  }

  ghost predicate RunFrom(h: Hashes, start: State, run: Run) {
    IsRun(h, run) && run.states[0] == start
  }

  ghost function Halt(st: State): (run: Run) {
    Run([st], [])
  }

  ghost function Extend(h: Hashes, run: Run, step: Step): (r: Run)
    requires IsRun(h, run) && Enabled(run.Last(), step)
    ensures IsRun(h, r) && r.states[0] == run.states[0]
    ensures r.Last() == Apply(h, run.Last(), step)
    ensures r.steps == run.steps + [step]
  {
    Run(run.states + [Apply(h, run.Last(), step)], run.steps + [step])
  }

  ghost function Join(h: Hashes, first: Run, second: Run): (r: Run)
    requires IsRun(h, first) && RunFrom(h, first.Last(), second)
    ensures IsRun(h, r) && r.states[0] == first.states[0] && r.Last() == second.Last()
    ensures r.steps == first.steps + second.steps
  {
    var r := Run(first.states + second.states[1..], first.steps + second.steps);
    assert forall i {:trigger r.steps[i]} :: 0 <= i < |r.steps| ==>
      Next(h, r.states[i], r.steps[i], r.states[i + 1]) by {
      forall i | 0 <= i < |r.steps| ensures Next(h, r.states[i], r.steps[i], r.states[i + 1]) {
        var n := |first.steps|;
        if i < n {
          assert Next(h, first.states[i], first.steps[i], first.states[i + 1]);
        } else {
          assert Next(h, second.states[i - n], second.steps[i - n], second.states[i - n + 1]);
        }
      }
    }
    r
  }

  ghost predicate Reaches(h: Hashes, before: State, after: State) {
    exists run: Run :: RunFrom(h, before, run) && run.Last() == after
  }

  /** Reachable from the empty server. */
  ghost predicate Reachable(h: Hashes, st: State) {
    Reaches(h, EMPTY, st)
  }
}
