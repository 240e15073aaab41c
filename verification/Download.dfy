/** The client's concurrent download: a worker pool, a sliding window and a reorder buffer.

    `fetch(i)` is whatever the worker that takes index `i` comes back with. Any order of delivery
    through the two channels is covered. */
module Downloads {
  import opened Content
  import opened Weights

  datatype Fetch = Fetched(bytes: Bytes) | FetchFailed

  function BytesOf(f: Fetch): (b: Bytes) {
    match f case Fetched(b) => b case FetchFailed => []
  }

  /** What a sequential download of the same fetches would write. */
  function Sequential(fetch: nat -> Fetch, n: nat): (bytes: Bytes) {
    if n == 0 then [] else Sequential(fetch, n - 1) + BytesOf(fetch(n - 1))
  }

  predicate AllFetched(fetch: nat -> Fetch, n: nat) {
    forall i: nat :: i < n ==> fetch(i).Fetched?
  }

  function Min(a: nat, b: nat): (m: nat) {
    if a < b then a else b
  }

  // ------------------------------------------------------------------ the main thread

  /** Exactly the scheduled but unwritten indexes are outstanding or pending, none of them both; what is
      pending is what its fetch returned. */
  ghost predicate Accounted(outstanding: set<nat>, pending: map<nat, Bytes>, lo: nat, hi: nat,
                            fetch: nat -> Fetch) {
    && (forall i :: i in outstanding ==> lo <= i < hi && i !in pending)
    && (forall i :: i in pending ==> lo <= i < hi && fetch(i) == Fetched(pending[i]))
    && (forall i :: lo <= i < hi ==> i in outstanding || i in pending)
  }

  /** The main thread of `download`, against workers that complete in any order: each receive takes an
      arbitrary outstanding index. The result is the sequential one, failures included; the window
      equation holds at every receive; a receive always has something to wait for. */
  method Reassemble(total: nat, window: nat, fetch: nat -> Fetch) returns (r: Option<Bytes>)
    requires 1 <= window
    ensures r == if AllFetched(fetch, total) then Some(Sequential(fetch, total)) else None
  {
    var nextScheduled, nextWrite := 0, 0;
    var outstanding: set<nat> := {};
    while nextScheduled < total && nextScheduled < window
      invariant nextScheduled <= Min(total, window)
      invariant Accounted(outstanding, map[], 0, nextScheduled, fetch)
    {
      outstanding := outstanding + {nextScheduled};
      nextScheduled := nextScheduled + 1;
    }
    var pending: map<nat, Bytes> := map[];
    var written: Bytes := [];
    while nextWrite < total
      invariant nextWrite <= nextScheduled == Min(total, nextWrite + window)
      invariant Accounted(outstanding, pending, nextWrite, nextScheduled, fetch) && nextWrite !in pending
      invariant AllFetched(fetch, nextWrite) && written == Sequential(fetch, nextWrite)
      decreases total - nextWrite, |outstanding|
    {
      assert nextWrite in outstanding;
      var index :| index in outstanding;
      outstanding := outstanding - {index};
      var result := fetch(index);
      if result.FetchFailed? {
        return None;
      }
      pending := pending[index := result.bytes];
      written, nextWrite, nextScheduled, outstanding, pending :=
        WriteReady(total, window, fetch, written, nextWrite, nextScheduled, outstanding, pending);
    }
    return Some(written);
  }

  /** The inner loop: write what is ready, scheduling one more job per chunk written. */
  method WriteReady(total: nat, window: nat, fetch: nat -> Fetch, written0: Bytes, nextWrite0: nat,
                    nextScheduled0: nat, outstanding0: set<nat>, pending0: map<nat, Bytes>)
    returns (written: Bytes, nextWrite: nat, nextScheduled: nat, outstanding: set<nat>, pending: map<nat, Bytes>)
    requires 1 <= window && nextWrite0 <= nextScheduled0 == Min(total, nextWrite0 + window)
    requires Accounted(outstanding0, pending0, nextWrite0, nextScheduled0, fetch)
    requires AllFetched(fetch, nextWrite0) && written0 == Sequential(fetch, nextWrite0)
    ensures nextWrite <= nextScheduled == Min(total, nextWrite + window)
    ensures Accounted(outstanding, pending, nextWrite, nextScheduled, fetch) && nextWrite !in pending
    ensures AllFetched(fetch, nextWrite) && written == Sequential(fetch, nextWrite)
    ensures nextWrite0 < nextWrite || (nextWrite == nextWrite0 && outstanding == outstanding0)
  {
    written, nextWrite, nextScheduled := written0, nextWrite0, nextScheduled0;
    outstanding, pending := outstanding0, pending0;
    while nextWrite in pending
      invariant nextWrite <= nextScheduled == Min(total, nextWrite + window)
      invariant Accounted(outstanding, pending, nextWrite, nextScheduled, fetch)
      invariant AllFetched(fetch, nextWrite) && written == Sequential(fetch, nextWrite)
      invariant nextWrite0 < nextWrite || (nextWrite == nextWrite0 && outstanding == outstanding0)
      decreases total - nextWrite
    {
      written := written + pending[nextWrite];
      pending := pending - {nextWrite};
      nextWrite := nextWrite + 1;
      if nextScheduled < total {
        outstanding := outstanding + {nextScheduled};
        nextScheduled := nextScheduled + 1;
      }
    }
  }

  // ------------------------------------------------------------------ threads and channels

  /** Where the work on one chunk is. */
  datatype Place =
    | Unscheduled
    | Queued     // in the job channel
    | Working    // taken by a worker, result not yet sent
    | Done       // in the result channel
    | Pending    // received, waiting for its turn in the reorder buffer
    | Written
    | Failed     // received as an error: the main thread gave up

  datatype Phase = Scheduling | Receiving | Writing | Finished | Aborted

  /** Main thread, `window` workers and two bounded channels of capacity `window`. */
  datatype Pipe = Pipe(phase: Phase, nextScheduled: nat, nextWrite: nat, places: seq<Place>, written: Bytes)

  datatype Move =
    | Schedule              // main sends one of the first jobs
    | BeginReceiving
    | Take(index: nat)      // an idle worker receives a job
    | Complete(index: nat)  // that worker sends its result
    | Receive(index: nat)
    | Write                 // main writes a ready chunk and sends the next job, if any
    | EndWriting

  function Start(total: nat): (p: Pipe) {
    Pipe(Scheduling, 0, 0, seq(total, i => Unscheduled), [])
  }

  function At(places: seq<Place>, i: nat): (x: Place) {
    if i < |places| then places[i] else Unscheduled
  }

  /** The main thread's next action is to send a job. */
  predicate WantsToSend(p: Pipe, window: nat) {
    || (p.phase == Scheduling && p.nextScheduled < |p.places| && p.nextScheduled < window)
    || (p.phase == Writing && At(p.places, p.nextWrite) == Pending && p.nextScheduled < |p.places|)
  }

  /** A send waits while its channel is full; only `window` workers exist. */
  predicate CanMove(p: Pipe, move: Move, window: nat) {
    match move
    case Schedule => p.phase == Scheduling && WantsToSend(p, window) && Count(p.places, Queued) < window
    case BeginReceiving => p.phase == Scheduling && !WantsToSend(p, window)
    case Take(i) => At(p.places, i) == Queued && Count(p.places, Working) < window
    case Complete(i) => At(p.places, i) == Working && Count(p.places, Done) < window
    case Receive(i) => p.phase == Receiving && At(p.places, i) == Done
    case Write =>
      && p.phase == Writing && At(p.places, p.nextWrite) == Pending
      && (WantsToSend(p, window) ==> Count(p.places, Queued) < window)
    case EndWriting => p.phase == Writing && At(p.places, p.nextWrite) != Pending
  }

  function Put(p: Pipe, i: nat, x: Place): (r: Pipe)
    ensures |r.places| == |p.places|
  {
    if i < |p.places| then p.(places := p.places[i := x]) else p
  }

  function Moved(p: Pipe, move: Move, fetch: nat -> Fetch): (r: Pipe) {
    match move
    case Schedule => Send(p)
    case BeginReceiving => p.(phase := if p.nextWrite < |p.places| then Receiving else Finished)
    case Take(i) => Put(p, i, Working)
    case Complete(i) => Put(p, i, Done)
    case Receive(i) =>
      if fetch(i).FetchFailed? then Put(p, i, Failed).(phase := Aborted) else Put(p, i, Pending).(phase := Writing)
    case Write => if p.nextScheduled < |p.places| then Send(WriteOne(p, fetch)) else WriteOne(p, fetch)
    case EndWriting => p.(phase := if p.nextWrite < |p.places| then Receiving else Finished)
  }

  function Send(p: Pipe): (r: Pipe) {
    Put(p, p.nextScheduled, Queued).(nextScheduled := p.nextScheduled + 1)
  }

  function WriteOne(p: Pipe, fetch: nat -> Fetch): (r: Pipe) {
    Put(p, p.nextWrite, Written).(nextWrite := p.nextWrite + 1, written := p.written + BytesOf(fetch(p.nextWrite)))
  }

  /** Written indexes are those below `lo`, unscheduled ones those from `hi` on; an index is marked failed only
      by an abort, and whatever is pending was fetched. */
  ghost predicate Placed(places: seq<Place>, lo: nat, hi: nat, aborted: bool, fetch: nat -> Fetch) {
    && (forall i: nat :: i < |places| ==> (places[i] == Written <==> i < lo))
    && (forall i: nat :: i < |places| ==> (places[i] == Unscheduled <==> hi <= i))
    && (forall i: nat :: i < |places| && places[i] == Failed ==> aborted && fetch(i).FetchFailed?)
    && (forall i: nat :: i < |places| && places[i] == Pending ==> fetch(i).Fetched?)
  }

  /** What has been written is the sequential download so far. */
  ghost predicate Faithful(written: Bytes, nextWrite: nat, fetch: nat -> Fetch) {
    AllFetched(fetch, nextWrite) && written == Sequential(fetch, nextWrite)
  }

  ghost predicate PipeInv(p: Pipe, window: nat, fetch: nat -> Fetch) {
    var total := |p.places|;
    && Placed(p.places, p.nextWrite, p.nextScheduled, p.phase == Aborted, fetch)
    && Faithful(p.written, p.nextWrite, fetch)
    && p.nextWrite <= p.nextScheduled <= Min(total, p.nextWrite + window)
    && (p.phase == Scheduling ==> p.nextWrite == 0 && At(p.places, 0) != Pending)
    && (p.phase != Scheduling ==> p.nextScheduled == Min(total, p.nextWrite + window))
    && (p.phase == Receiving ==> p.nextWrite < total && At(p.places, p.nextWrite) != Pending)
    && (p.phase == Finished ==> p.nextWrite == total)
    && (p.phase == Aborted ==> !AllFetched(fetch, total))
  }

  lemma ReceiveKeepsInv(p: Pipe, i: nat, window: nat, fetch: nat -> Fetch)
    requires PipeInv(p, window, fetch) && p.phase == Receiving && At(p.places, i) == Done
    ensures PipeInv(Moved(p, Receive(i), fetch), window, fetch)
  {
    hide Faithful;
  }

  lemma WriteKeepsInv(p: Pipe, window: nat, fetch: nat -> Fetch)
    requires PipeInv(p, window, fetch) && p.phase == Writing && At(p.places, p.nextWrite) == Pending && 1 <= window
    ensures PipeInv(Moved(p, Write, fetch), window, fetch)
  {
    var q := WriteOne(p, fetch);
    assert Faithful(q.written, q.nextWrite, fetch);
    assert Placed(q.places, q.nextWrite, q.nextScheduled, false, fetch);
    hide Faithful;
  }

  lemma MoveKeepsInv(p: Pipe, move: Move, window: nat, fetch: nat -> Fetch)
    requires PipeInv(p, window, fetch) && 1 <= window && CanMove(p, move, window)
    ensures PipeInv(Moved(p, move, fetch), window, fetch)
    ensures |Moved(p, move, fetch).places| == |p.places|
  {
    hide Faithful, AllFetched, Count;
    match move {
      case Receive(i) => ReceiveKeepsInv(p, i, window, fetch);
      case Write => WriteKeepsInv(p, window, fetch);
      case _ =>
    }
  }

  function InFlight(x: Place): (n: nat) {
    if x.Queued? || x.Working? || x.Done? || x.Pending? then 1 else 0
  }

  lemma {:induction false} FlightCount(places: seq<Place>, lo: nat, hi: nat, aborted: bool, fetch: nat -> Fetch)
    requires Placed(places, lo, hi, aborted, fetch) && lo <= hi
    ensures Weigh(places, InFlight) <= Min(|places|, hi) - Min(|places|, lo)
  {
    if places != [] {
      var rest := places[..|places| - 1];
      assert forall i: nat :: i < |rest| ==> rest[i] == places[i];
      FlightCount(rest, lo, hi, aborted, fetch);
    }
  }

  lemma {:induction false} FlightSplits(places: seq<Place>)
    ensures Weigh(places, InFlight) ==
            Count(places, Queued) + Count(places, Working) + Count(places, Done) + Count(places, Pending)
  {
    if places != [] {
      FlightSplits(places[..|places| - 1]);
    }
  }

  /** Everything in flight or waiting to be written is bounded by the window. */
  lemma InFlightBounded(p: Pipe, window: nat, fetch: nat -> Fetch)
    requires PipeInv(p, window, fetch)
    ensures Count(p.places, Queued) + Count(p.places, Working) + Count(p.places, Done) + Count(p.places, Pending)
            <= p.nextScheduled - p.nextWrite <= window
  {
    FlightCount(p.places, p.nextWrite, p.nextScheduled, p.phase == Aborted, fetch);
    FlightSplits(p.places);
  }

  /** No send ever blocks: whenever the main thread is about to send a job the job channel has room,
      and whenever a worker is about to send its result the result channel has room, even after the
      main thread has given up; and a queued job always finds an idle worker. */
  lemma NoSendBlocks(p: Pipe, window: nat, fetch: nat -> Fetch)
    requires PipeInv(p, window, fetch)
    ensures WantsToSend(p, window) ==> Count(p.places, Queued) < window
    ensures forall i :: At(p.places, i) == Working ==> Count(p.places, Done) < window
    ensures forall i :: At(p.places, i) == Queued ==> Count(p.places, Working) < window
  {
    InFlightBounded(p, window, fetch);
    if WantsToSend(p, window) && p.phase == Writing {
      CountPositive(p.places, p.nextWrite);
    }
    forall i | At(p.places, i) == Working || At(p.places, i) == Queued
      ensures Count(p.places, At(p.places, i)) >= 1
    {
      CountPositive(p.places, i);
    }
  }

  /** A receive always has an outstanding job to wait for: the very chunk to be written next. */
  lemma ReceiveHasOutstanding(p: Pipe, window: nat, fetch: nat -> Fetch)
    requires PipeInv(p, window, fetch) && 1 <= window && p.phase == Receiving
    ensures At(p.places, p.nextWrite) in {Queued, Working, Done}
  {
  }

  /** Everyone is done: the main thread has returned and the workers have nothing left. */
  ghost predicate Quiet(p: Pipe) {
    && (p.phase == Finished || p.phase == Aborted)
    && (forall i :: At(p.places, i) != Queued && At(p.places, i) != Working)
  }

  /** No deadlock: until everyone is done some move is possible. */
  lemma SomeMove(p: Pipe, window: nat, fetch: nat -> Fetch) returns (move: Move)
    requires PipeInv(p, window, fetch) && 1 <= window && !Quiet(p)
    ensures CanMove(p, move, window)
  {
    NoSendBlocks(p, window, fetch);
    hide Count;
    if i :| At(p.places, i) == Working {
      move := Complete(i);
    } else if i :| At(p.places, i) == Queued {
      move := Take(i);
    } else if p.phase == Scheduling {
      move := if WantsToSend(p, window) then Schedule else BeginReceiving;
    } else if p.phase == Writing {
      move := if At(p.places, p.nextWrite) == Pending then Write else EndWriting;
    } else {
      ReceiveHasOutstanding(p, window, fetch);
      move := Receive(p.nextWrite);
    }
  }

  /** How much is left to do for a chunk. */
  function Left(x: Place): (n: nat) {
    match x
    case Unscheduled => 15
    case Queued => 12
    case Working => 9
    case Done => 6
    case Pending => 3
    case _ => 0
  }

  function PhaseRank(phase: Phase): (n: nat) {
    match phase
    case Scheduling => 3
    case Writing => 2
    case Receiving => 1
    case _ => 0
  }

  function Rank(p: Pipe): (n: nat) {
    Weigh(p.places, Left) + PhaseRank(p.phase)
  }

  /** Every move makes progress, so every schedule ends. */
  lemma MoveDecreasesRank(p: Pipe, move: Move, window: nat, fetch: nat -> Fetch)
    requires PipeInv(p, window, fetch) && CanMove(p, move, window)
    ensures Rank(Moved(p, move, fetch)) < Rank(p)
  {
    hide Count, Faithful, AllFetched, Weigh;
    match move {
      case Schedule => WeighUpdate(p.places, p.nextScheduled, Queued, Left);
      case Take(i) => WeighUpdate(p.places, i, Working, Left);
      case Complete(i) => WeighUpdate(p.places, i, Done, Left);
      case Receive(i) =>
        WeighUpdate(p.places, i, Failed, Left);
        WeighUpdate(p.places, i, Pending, Left);
      case Write =>
        var q := WriteOne(p, fetch);
        WeighUpdate(p.places, p.nextWrite, Written, Left);
        if p.nextScheduled < |p.places| {
          WeighUpdate(q.places, p.nextScheduled, Queued, Left);
        }
      case _ =>
    }
  }

  ghost predicate IsSchedule(run: seq<Pipe>, moves: seq<Move>, total: nat, window: nat, fetch: nat -> Fetch) {
    && |run| == |moves| + 1 && run[0] == Start(total)
    && forall i :: 0 <= i < |moves| ==>
         CanMove(run[i], moves[i], window) && run[i + 1] == Moved(run[i], moves[i], fetch)
  }

  lemma {:induction false} ScheduleKeepsInv(run: seq<Pipe>, moves: seq<Move>, total: nat, window: nat,
                                            fetch: nat -> Fetch, n: nat)
    requires IsSchedule(run, moves, total, window, fetch) && 1 <= window && n <= |moves|
    ensures PipeInv(run[n], window, fetch) && |run[n].places| == total
    ensures Rank(run[n]) + n <= 15 * total + 3
  {
    if n == 0 {
      WeighConstant(Start(total).places, Unscheduled, Left);
    } else {
      ScheduleKeepsInv(run, moves, total, window, fetch, n - 1);
      hide PipeInv, CanMove, Moved, Rank;
      assert CanMove(run[n - 1], moves[n - 1], window);
      MoveKeepsInv(run[n - 1], moves[n - 1], window, fetch);
      MoveDecreasesRank(run[n - 1], moves[n - 1], window, fetch);
    }
  }

  /** Concurrent download refines the sequential one: for every interleaving of main thread and
      workers, a finished run has written exactly what a sequential download would write, in manifest
      order; an aborted run means some fetch failed; and the number of moves is bounded. A run that can
      go no further has finished exactly when every fetch succeeded. */
  lemma ConcurrentRefinesSequential(run: seq<Pipe>, moves: seq<Move>, total: nat, window: nat, fetch: nat -> Fetch)
    requires IsSchedule(run, moves, total, window, fetch) && 1 <= window
    ensures |moves| <= 15 * total + 3
    ensures var last := run[|moves|];
      && (last.phase == Finished ==> AllFetched(fetch, total) && last.written == Sequential(fetch, total))
      && (last.phase == Aborted ==> !AllFetched(fetch, total))
      && (last.phase == Receiving ==> last.nextScheduled == Min(total, last.nextWrite + window))
      && (Count(last.places, Queued) + Count(last.places, Working) + Count(last.places, Done)
          + Count(last.places, Pending) <= window)
      && ((forall move :: !CanMove(last, move, window)) ==>
            Quiet(last) && (last.phase == Finished <==> AllFetched(fetch, total)))
  {
    var last := run[|moves|];
    ScheduleKeepsInv(run, moves, total, window, fetch, |moves|);
    InFlightBounded(last, window, fetch);
    if !Quiet(last) {
      var move := SomeMove(last, window, fetch);
    }
  }
}
