/** The client's upload: a producer re-reading the file, a bounded job channel and a pool of workers. */
module Uploads {
  import opened Weights

  // ------------------------------------------------------------------ the plan

  function Indexes(plan: seq<nat>): (r: set<nat>) {
    set i | i in plan
  }

  /** The client's two checks of the server's plan: range, then duplicates by comparing sizes. */
  predicate AcceptsPlan(plan: seq<nat>, chunks: nat) {
    (forall k :: 0 <= k < |plan| ==> plan[k] < chunks) && |Indexes(plan)| == |plan|
  }

  lemma {:induction false} IndexesBound(plan: seq<nat>)
    ensures |Indexes(plan)| <= |plan|
    ensures |Indexes(plan)| == |plan| <==> forall j, k :: 0 <= j < k < |plan| ==> plan[j] != plan[k]
  {
    if plan == [] {
      assert Indexes(plan) == {};
    } else {
      var n := |plan| - 1;
      var rest, last := plan[..n], plan[n];
      IndexesBound(rest);
      assert plan == rest + [last];
      assert Indexes(plan) == Indexes(rest) + {last};
      assert forall k :: 0 <= k < n ==> rest[k] == plan[k];
      if last in Indexes(rest) {
        var k :| 0 <= k < n && rest[k] == last;
        assert plan[k] == plan[n];
        assert Indexes(plan) == Indexes(rest);
      }
    }
  }

  /** A plan passes exactly when it lists distinct chunks of the manifest. */
  lemma PlanIsDistinct(plan: seq<nat>, chunks: nat)
    ensures AcceptsPlan(plan, chunks) <==>
            && (forall k :: 0 <= k < |plan| ==> plan[k] < chunks)
            && (forall j, k :: 0 <= j < k < |plan| ==> plan[j] != plan[k])
  {
    IndexesBound(plan);
  }

  // ------------------------------------------------------------------ the pool

  datatype Job =
    | Unsent
    | Queued     // in the job channel
    | Working    // a worker is putting it
    | Acked      // the server answered with success
    | Rejected   // the put failed for good; the worker reported it

  datatype Phase =
    | Producing   // about to take chunk `next` from the stream
    | Polling     // about to look into the failure channel
    | Closed      // the job channel is dropped; waiting for the workers
    | Finalizing  // about to ask the server to finalize
    | Failing     // about to return an error

  /** `next` counts the chunks already dealt with; `exiting` counts the workers that have reported a failure but
      still hold their receiver. */
  datatype Pool = Pool(
    phase: Phase,
    next: nat,
    jobs: seq<Job>,
    live: nat,
    exiting: nat,
    failures: nat,
    error: bool)

  datatype Move =
    | Produce         // read a chunk and, if it is missing, send it
    | Poll            // try_recv on the failure channel
    | Take(index: nat)
    | Answer(index: nat)
    | Exit            // a worker that reported a failure stops
    | Leave           // an idle worker finds the channel closed and empty
    | Join            // all workers are gone

  /** The environment: how many chunks the second reading yields, whether reading each one succeeds, which
      indexes the server asked for and whether each put finally succeeds. */
  datatype World = World(total: nat, missing: set<nat>, readable: nat -> bool, put: nat -> bool, workers: nat)

  function Start(w: World): (p: Pool) {
    Pool(Producing, 0, seq(w.total, i => Unsent), w.workers, 0, 0, false)
  }

  function At(jobs: seq<Job>, i: nat): (j: Job) {
    if i < |jobs| then jobs[i] else Unsent
  }

  predicate Sends(p: Pool, w: World) {
    p.next < |p.jobs| && w.readable(p.next) && p.next in w.missing
  }

  /** A send waits while the channel is full, unless every receiver is gone. */
  predicate CanMove(p: Pool, move: Move, w: World) {
    match move
    case Produce =>
      p.phase == Producing && (Sends(p, w) ==> p.live == 0 || Count(p.jobs, Queued) < w.workers)
    case Poll => p.phase == Polling
    case Take(i) => At(p.jobs, i) == Queued && Count(p.jobs, Working) + p.exiting < p.live
    case Answer(i) => At(p.jobs, i) == Working
    case Exit => p.exiting > 0 && p.live > 0
    case Leave =>
      && p.phase == Closed && Count(p.jobs, Queued) == 0
      && Count(p.jobs, Working) + p.exiting < p.live
    case Join => p.phase == Closed && p.live == 0
  }

  function Set(p: Pool, i: nat, j: Job): (r: Pool) {
    if i < |p.jobs| then p.(jobs := p.jobs[i := j]) else p
  }

  function Moved(p: Pool, move: Move, w: World): (r: Pool) {
    match move
    case Produce =>
      if p.next >= |p.jobs| then p.(phase := Closed)
      else if !w.readable(p.next) then p.(phase := Closed, error := true)
      else if p.next !in w.missing then p.(phase := Polling)
      else if p.live == 0 then p.(phase := Closed, error := true)
      else Set(p, p.next, Queued).(phase := Polling)
    case Poll =>
      if p.failures > 0 then p.(phase := Closed, next := p.next + 1, error := true, failures := p.failures - 1)
      else p.(phase := Producing, next := p.next + 1)
    case Take(i) => Set(p, i, Working)
    case Answer(i) =>
      if w.put(i) then Set(p, i, Acked)
      else Set(p, i, Rejected).(failures := p.failures + 1, exiting := p.exiting + 1)
    case Exit => if p.exiting > 0 && p.live > 0 then p.(exiting := p.exiting - 1, live := p.live - 1) else p
    case Leave => if p.live > 0 then p.(live := p.live - 1) else p
    case Join => p.(phase := if p.error || p.failures > 0 then Failing else Finalizing)
  }

  /** How far the producer has got. */
  function Reached(p: Pool): (n: nat) {
    if p.phase == Polling then p.next + 1 else p.next
  }

  /** A sequential upload would succeed. */
  ghost predicate AllWell(w: World) {
    forall i: nat :: i < w.total ==> w.readable(i) && (i in w.missing ==> w.put(i))
  }

  /** Exactly the missing chunks the producer has passed were sent, and answers are the server's. */
  ghost predicate Sent(jobs: seq<Job>, reached: nat, w: World) {
    && |jobs| == w.total
    && (forall i: nat :: i < w.total ==> (jobs[i] != Unsent <==> i < reached && i in w.missing))
    && (forall i: nat :: i < w.total && jobs[i] == Acked ==> w.put(i))
    && (forall i: nat :: i < w.total && jobs[i] == Rejected ==> !w.put(i))
  }

  ghost predicate ReadSoFar(reached: nat, w: World) {
    reached <= w.total && forall i: nat :: i < reached ==> w.readable(i)
  }

  /** No failure is overlooked, and none is invented. */
  ghost predicate Reported(p: Pool, w: World) {
    && (Count(p.jobs, Rejected) > 0 ==> p.error || p.failures > 0)
    && (p.error ==> !AllWell(w))
    && p.failures <= Count(p.jobs, Rejected)
  }

  /** The workers are the busy, the exiting and the idle; a worker is gone only because it reported a
      failure or because the channel was closed and empty. */
  ghost predicate Staffed(p: Pool, w: World) {
    && Count(p.jobs, Working) + p.exiting <= p.live
    && p.exiting <= Count(p.jobs, Rejected)
    && (p.live + Count(p.jobs, Rejected) == w.workers + p.exiting
        || (p.phase !in {Producing, Polling} && Count(p.jobs, Queued) == 0))
  }

  ghost predicate PoolInv(p: Pool, w: World) {
    && Sent(p.jobs, Reached(p), w) && ReadSoFar(Reached(p), w)
    && Reported(p, w) && Staffed(p, w)
    && (p.phase in {Producing, Polling} ==> !p.error)
    && (p.phase in {Closed, Finalizing} && !p.error ==> p.next == w.total)
    && (p.phase in {Finalizing, Failing} ==> p.live == 0)
    && (p.phase == Finalizing ==> !p.error && p.failures == 0)
    && (p.phase == Failing ==> p.error || p.failures > 0)
  }

  /** A rejected job is a failed put of a missing chunk. */
  lemma RejectionIsFailure(p: Pool, w: World)
    requires Sent(p.jobs, Reached(p), w) && Count(p.jobs, Rejected) > 0
    ensures !AllWell(w)
  {
    var i := Find(p.jobs, Rejected);
    assert i in w.missing && !w.put(i);
  }

  lemma CountsAfter(jobs: seq<Job>, i: nat, x: Job)
    requires i < |jobs|
    ensures forall at :: at in {Queued, Working, Rejected} ==>
              Count(jobs[i := x], at) ==
              Count(jobs, at) - (if jobs[i] == at then 1 else 0) + (if x == at then 1 else 0)
  {
    forall at | at in {Queued, Working, Rejected} {
      CountUpdate(jobs, i, x, at);
    }
  }

  lemma ProduceKeepsInv(p: Pool, w: World)
    requires PoolInv(p, w) && w.workers >= 1 && CanMove(p, Produce, w)
    ensures PoolInv(Moved(p, Produce, w), w)
  {
    hide Count;
    if Sends(p, w) {
      if p.live == 0 {
        RejectionIsFailure(p, w);
      } else {
        CountsAfter(p.jobs, p.next, Queued);
      }
    }
  }

  lemma PollKeepsInv(p: Pool, w: World)
    requires PoolInv(p, w) && CanMove(p, Poll, w)
    ensures PoolInv(Moved(p, Poll, w), w)
  {
    hide Count;
    if p.failures > 0 {
      RejectionIsFailure(p, w);
    }
    hide Sent, ReadSoFar, AllWell;
  }

  lemma TakeKeepsInv(p: Pool, i: nat, w: World)
    requires PoolInv(p, w) && CanMove(p, Take(i), w)
    ensures PoolInv(Moved(p, Take(i), w), w)
  {
    hide Count, ReadSoFar, AllWell;
    CountsAfter(p.jobs, i, Working);
  }

  lemma AnswerKeepsInv(p: Pool, i: nat, w: World)
    requires PoolInv(p, w) && CanMove(p, Answer(i), w)
    ensures PoolInv(Moved(p, Answer(i), w), w)
  {
    hide Count, ReadSoFar, AllWell;
    CountsAfter(p.jobs, i, if w.put(i) then Acked else Rejected);
    CountPositive(p.jobs, i);
  }

  lemma MoveKeepsInv(p: Pool, move: Move, w: World)
    requires PoolInv(p, w) && w.workers >= 1 && CanMove(p, move, w)
    ensures PoolInv(Moved(p, move, w), w)
  {
    match move {
      case Produce => ProduceKeepsInv(p, w);
      case Poll => PollKeepsInv(p, w);
      case Take(i) => TakeKeepsInv(p, i, w);
      case Answer(i) => AnswerKeepsInv(p, i, w);
      case _ => hide Count, ReadSoFar, Sent, AllWell;
    }
  }

  /** With every worker gone and no failure to report, every missing chunk was acknowledged. */
  lemma FinalizingMeansAcked(p: Pool, w: World)
    requires PoolInv(p, w) && w.workers >= 1 && p.phase == Finalizing
    ensures forall i: nat :: i < w.total && i in w.missing ==> p.jobs[i] == Acked
    ensures AllWell(w)
  {
    forall i: nat | i < w.total && i in w.missing
      ensures p.jobs[i] == Acked
    {
      CountPositive(p.jobs, i);
    }
  }

  /** Failing means something went wrong that a sequential upload would have met too. */
  lemma FailingMeansFailure(p: Pool, w: World)
    requires PoolInv(p, w) && p.phase == Failing
    ensures !AllWell(w)
  {
    if !p.error {
      RejectionIsFailure(p, w);
    }
  }

  /** No deadlock: until the upload has an outcome some move is possible, even with every worker dead and
      jobs still queued. */
  lemma SomeMove(p: Pool, w: World) returns (move: Move)
    requires PoolInv(p, w) && w.workers >= 1 && p.phase !in {Finalizing, Failing}
    ensures CanMove(p, move, w)
  {
    if p.phase == Polling {
      move := Poll;
    } else if p.exiting > 0 {
      move := Exit;
    } else if Count(p.jobs, Working) > 0 {
      var i := Find(p.jobs, Working);
      move := Answer(i);
    } else if p.live == 0 {
      move := if p.phase == Producing then Produce else Join;
    } else if Count(p.jobs, Queued) > 0 {
      var i := Find(p.jobs, Queued);
      move := Take(i);
    } else {
      move := if p.phase == Producing then Produce else Leave;
    }
  }

  function Left(j: Job): (n: nat) {
    match j
    case Unsent => 4
    case Queued => 3
    case Working => 2
    case _ => 0
  }

  function PhaseRank(phase: Phase): (n: nat) {
    match phase
    case Producing => 3
    case Polling => 2
    case Closed => 1
    case _ => 0
  }

  function Rank(p: Pool): (n: int) {
    2 * Weigh(p.jobs, Left) + 2 * (|p.jobs| - p.next) + PhaseRank(p.phase) + 2 * p.live + p.exiting
  }

  /** Every move makes progress, so every schedule ends. */
  lemma MoveDecreasesRank(p: Pool, move: Move, w: World)
    requires PoolInv(p, w) && w.workers >= 1 && CanMove(p, move, w)
    ensures Rank(Moved(p, move, w)) < Rank(p)
  {
    hide Count, Weigh, Reported, Staffed, ReadSoFar, AllWell;
    match move {
      case Produce => if Sends(p, w) && p.live > 0 { WeighUpdate(p.jobs, p.next, Queued, Left); }
      case Take(i) => WeighUpdate(p.jobs, i, Working, Left);
      case Answer(i) => WeighUpdate(p.jobs, i, if w.put(i) then Acked else Rejected, Left);
      case _ =>
    }
  }

  ghost predicate IsSchedule(run: seq<Pool>, moves: seq<Move>, w: World) {
    && |run| == |moves| + 1 && run[0] == Start(w)
    && forall i :: 0 <= i < |moves| ==> CanMove(run[i], moves[i], w) && run[i + 1] == Moved(run[i], moves[i], w)
  }

  lemma StartHolds(w: World)
    ensures PoolInv(Start(w), w) && Rank(Start(w)) == 10 * w.total + 2 * w.workers + 3
  {
    var jobs := Start(w).jobs;
    forall at | at in {Queued, Working, Rejected} ensures Count(jobs, at) == 0 {
      CountConstant(jobs, Unsent, at);
    }
    WeighConstant(jobs, Unsent, Left);
  }

  lemma {:induction false} ScheduleKeepsInv(run: seq<Pool>, moves: seq<Move>, w: World, n: nat)
    requires IsSchedule(run, moves, w) && w.workers >= 1 && n <= |moves|
    ensures PoolInv(run[n], w)
    ensures Rank(run[n]) + n <= 10 * w.total + 2 * w.workers + 3
  {
    hide PoolInv, CanMove, Moved, Rank;
    if n == 0 {
      StartHolds(w);
    } else {
      ScheduleKeepsInv(run, moves, w, n - 1);
      assert CanMove(run[n - 1], moves[n - 1], w);
      MoveKeepsInv(run[n - 1], moves[n - 1], w);
      MoveDecreasesRank(run[n - 1], moves[n - 1], w);
    }
  }

  lemma MoveKeepsAnswers(p: Pool, move: Move, w: World, i: nat)
    requires Sent(p.jobs, Reached(p), w) && CanMove(p, move, w) && At(p.jobs, i) in {Acked, Rejected}
    ensures At(Moved(p, move, w).jobs, i) == At(p.jobs, i)
  {
    hide Count;
  }

  /** A job once acknowledged or rejected stays so. */
  lemma {:induction false} AnswersStay(run: seq<Pool>, moves: seq<Move>, w: World, m: nat, n: nat, i: nat)
    requires IsSchedule(run, moves, w) && w.workers >= 1 && m <= n <= |moves|
    requires At(run[m].jobs, i) in {Acked, Rejected}
    ensures At(run[n].jobs, i) == At(run[m].jobs, i)
    decreases n
  {
    if m < n {
      AnswersStay(run, moves, w, m, n - 1, i);
      ScheduleKeepsInv(run, moves, w, n - 1);
      hide CanMove, Moved, At, Reported, Staffed, ReadSoFar, Sent;
      assert CanMove(run[n - 1], moves[n - 1], w);
      MoveKeepsAnswers(run[n - 1], moves[n - 1], w, i);
    }
  }

  lemma ClosedStaysClosed(p: Pool, move: Move, w: World, k: nat)
    requires p.phase !in {Producing, Polling} && CanMove(p, move, w)
    ensures Moved(p, move, w).phase !in {Producing, Polling}
    ensures At(p.jobs, k) == Unsent ==> At(Moved(p, move, w).jobs, k) == Unsent
  {
    hide Count;
  }

  /** The producer stops at the first failure it sees: after a poll that finds one, or a chunk it cannot read, or with
      every worker gone, nothing more is sent. */
  lemma {:induction false} NothingSentAfterFailure(run: seq<Pool>, moves: seq<Move>, w: World, i: nat, n: nat, k: nat)
    requires IsSchedule(run, moves, w) && i < n <= |moves| && At(run[i].jobs, k) == Unsent
    requires || (moves[i] == Poll && run[i].failures > 0)
             || (moves[i] == Produce && run[i].next < |run[i].jobs| && !w.readable(run[i].next))
             || (moves[i] == Produce && Sends(run[i], w) && run[i].live == 0)
    ensures At(run[n].jobs, k) == Unsent && run[n].phase !in {Producing, Polling}
    decreases n
  {
    assert CanMove(run[n - 1], moves[n - 1], w) && run[n] == Moved(run[n - 1], moves[n - 1], w);
    if n > i + 1 {
      NothingSentAfterFailure(run, moves, w, i, n - 1, k);
      hide CanMove, Moved, At;
      ClosedStaysClosed(run[n - 1], moves[n - 1], w, k);
    } else {
      hide Count;
    }
  }

  /** The outcome does not depend on the schedule. Whatever the producer and the workers interleave, finalize
      is reached only with every missing chunk that was read acknowledged by a successful put; a failure
      reported at any time, after the last send or by the last living worker included, rules finalize out;
      the number of moves is bounded; and a schedule that can go no further has reached finalize exactly
      when a sequential upload would have succeeded, and an error otherwise. */
  lemma FinalizeOnlyAfterEveryAck(run: seq<Pool>, moves: seq<Move>, w: World)
    requires IsSchedule(run, moves, w) && w.workers >= 1
    ensures |moves| <= 10 * w.total + 2 * w.workers + 3
    ensures var last := run[|moves|];
      && (last.phase == Finalizing ==>
            forall i: nat :: i < w.total && i in w.missing ==> At(last.jobs, i) == Acked)
      && ((exists m: nat, i: nat :: m < |run| && At(run[m].jobs, i) == Rejected) ==> last.phase != Finalizing)
      && (last.phase == Finalizing ==> AllWell(w))
      && (last.phase == Failing ==> !AllWell(w))
      && ((forall move :: !CanMove(last, move, w)) ==> last.phase == if AllWell(w) then Finalizing else Failing)
  {
    var last := run[|moves|];
    ScheduleKeepsInv(run, moves, w, |moves|);
    if last.phase == Finalizing {
      FinalizingMeansAcked(last, w);
      forall m: nat, i: nat | m < |run| ensures At(run[m].jobs, i) != Rejected {
        if At(run[m].jobs, i) == Rejected {
          AnswersStay(run, moves, w, m, |moves|, i);
          CountPositive(last.jobs, i);
        }
      }
    }
    if last.phase == Failing {
      FailingMeansFailure(last, w);
    }
    if last.phase !in {Finalizing, Failing} {
      var move := SomeMove(last, w);
    }
    assert Rank(last) >= 0;
  }
}
